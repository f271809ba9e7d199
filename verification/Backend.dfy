/** The writer's backend: inserting the events of a request, and reserving ids. */
module Backend {
  import opened Types
  import opened Replay
  import opened Tables
  import opened DbEvents
  import opened WriteLaws
  import opened Batches
  import opened LockIndex

  type IdSequences = map<Collection, int>

  /** Every id of a collection is below its sequence. */
  ghost predicate SequencesOk(models: Models, sequences: IdSequences) {
    && (forall f | f in models :: f.collection in sequences && f.id < sequences[f.collection])
    && (forall c | c in sequences :: 1 <= sequences[c])
  }

  /** Sequences are kept, and never fall back. */
  ghost predicate SequencesGrow(before: IdSequences, after: IdSequences) {
    forall c | c in before :: c in after && before[c] <= after[c]
  }

  /** The higher one, for a collection that is in one of them. */
  function Greatest(sequences: IdSequences, maxIds: IdSequences, c: Collection): int
    requires c in sequences.Keys + maxIds.Keys
  {
    if c !in sequences then maxIds[c]
    else if c !in maxIds || sequences[c] > maxIds[c] then sequences[c]
    else maxIds[c]
  }

  const COLLECTION_MAX_LEN := 32

  ghost predicate HistoryOk(ps: seq<Position>, last: nat, hist: seq<seq<Event>>, t: EventTable, next: nat) {
    && Ascending(ps) && (forall p | p in ps :: p <= last)
    && HoldsHistory(t, ps, hist) && IdsBelow(t, next)
  }

  /** The `models` table is the replay of the history. */
  ghost predicate CacheOk(ps: seq<Position>, hist: seq<seq<Event>>, models: Models) {
    |ps| == |hist| && ReplayHistory(ps, hist, |ps|) == Ok(models)
  }

  /** The history of a database. */
  ghost function LogOf(db: Database): Log
    reads db
  {
    Log(PositionsOf(db.positions), db.history)
  }

  /** The lock index starts with the history, or behind one of its positions. */
  ghost predicate StartsWithin(ps: seq<Position>, from: Position) { from == 0 || from in ps }

  function LastPosition(rows: seq<PositionRow>): Position { if rows == [] then 0 else rows[|rows| - 1].position }

  /** The lock index starts anew after the last position. */
  ghost predicate IndexCleared(db: Database)
    reads db
  {
    db.collectionfields == map[] && db.links == {} && db.indexedFrom == LastPosition(db.positions)
  }

  /** What the tables of the writer satisfy. */
  ghost predicate StoreOk(db: Database)
    reads db
  {
    var ps := PositionsOf(db.positions);
    && HistoryOk(ps, db.positionSeq, db.history, db.events, db.eventSeq)
    && CacheOk(ps, db.history, db.models)
    && IndexOk(Log(ps, db.history), db.events, db.collectionfields, db.links, db.indexedFrom)
    && SequencesOk(db.models, db.idSequences) && StartsWithin(ps, db.indexedFrom)
  }

  class DatabaseBackend {
    const db: Database

    constructor (db: Database)
      ensures this.db == db
    {
      this.db := db;
    }

    /** The database hands out a greater position, but not necessarily the next one. */
    method CreatePosition(migrationIndex: int) returns (position: Position)
      modifies db`positions, db`positionSeq
      ensures position > old(db.positionSeq) && db.positionSeq == position
      ensures db.positions == old(db.positions) + [PositionRow(position, migrationIndex)]
    {
      position :| position > db.positionSeq;
      db.positionSeq := position;
      db.positions := db.positions + [PositionRow(position, migrationIndex)];
    }

    /** The loop over the events of the request, without the writes to the database. */
    method TranslateAll(rs: seq<RequestEvent>, pos: Position) returns (r: Result<Batch>, ghost now: Models)
      requires RowsOk(db.models) && forall e | e in rs :: ValidRequest(e)
      ensures r.Ok? ==> BatchOk(db.models, set e | e in rs :: e.fqid, pos, r.value, now)
      ensures r.Ok? <==> LegalAll(db.models, rs, pos)
      ensures r.Ok? ==> StoredEvents(r.value.events) == AllEvents(db.models, rs, pos)
      ensures r.Err? ==> RefusedWith(db.models, rs, pos) == Some(r.error)
    {
      hide BatchOk, LegalAll, AllEvents, RefusedWith, Legal, ValidRequest, EventsFor, ReplayEvents, RowOk;
      var scope := set e | e in rs :: e.fqid;
      ghost var table := db.models;
      var b := Batch([], FetchedModels(db.models, scope), map[], map[]);
      now := table;
      StartBatch(table, scope, pos);
      assert rs[0..] == rs;
      assert AllEvents(table, rs, pos) == StoredEvents([]) + AllEvents(table, rs, pos);
      for i := 0 to |rs|
        invariant BatchOk(table, scope, pos, b, now)
        invariant LegalAll(table, rs, pos) <==> LegalAll(now, rs[i..], pos)
        invariant RefusedWith(table, rs, pos) == RefusedWith(now, rs[i..], pos)
        invariant AllEvents(table, rs, pos) == StoredEvents(b.events) + AllEvents(now, rs[i..], pos)
      {
        var e := rs[i];
        assert e in rs && e.fqid in scope && rs[i..][0] == e && rs[i..][1..] == rs[i + 1..];
        ghost var before := now;
        var added;
        added, now := TranslateOne(e, b, pos, table, scope, now);
        FirstRequest(before, rs[i..], pos);
        if added.Err? {
          return Err(added.error), now;
        }
        StoredConcat(b.events, EventsFor(before, e).value);
        b := added.value;
      }
      NoRequests(now, rs[|rs|..], pos);
      r := Ok(b);
    }

    /** One request event: translate it, then take over its events one by one. */
    method TranslateOne(r: RequestEvent, b: Batch, pos: Position,
      ghost table: Models, ghost scope: set<Fqid>, ghost now: Models)
      returns (b': Result<Batch>, ghost now': Models)
      requires BatchOk(table, scope, pos, b, now) && r.fqid in scope && ValidRequest(r)
      ensures b'.Ok? <==> Legal(r, Lookup(now, r.fqid))
      ensures b'.Err? ==> EventsFor(now, r) == Err(b'.error)
      ensures b'.Ok? ==> BatchOk(table, scope, pos, b'.value, now')
      ensures b'.Ok? ==> EventsFor(now, r).Ok? && b'.value.events == b.events + EventsFor(now, r).value
      ensures b'.Ok? ==> ReplayEvents(now, StoredEvents(EventsFor(now, r).value), pos) == Ok(now')
    {
      hide Legal, ValidRequest, FaithfulAll, Faithful, IndicesOk, MaxIdsOk, ReplayEvents, NextRow, Translate, RowOk;
      TranslateReads(r, now, b.models, scope);
      TranslateFaithful(r, b.models, Lookup(now, r.fqid), pos);
      var translated := Translate(r, b.models);
      if translated.Err? {
        return Err(translated.error), now;
      }
      var es, batch := translated.value, b;
      now' := now;
      assert es[0..] == es;
      NothingReplayed(now, es, pos);
      for j := 0 to |es|
        invariant BatchOk(table, scope, pos, batch, now')
        invariant FaithfulAll(Lookup(now', r.fqid), es[j..], pos)
        invariant ReplayEvents(now, StoredEvents(es[..j]), pos) == Ok(now') && batch.events == b.events + es[..j]
      {
        assert es[j..][0] == es[j] && es[j..][1..] == es[j + 1..];
        FirstFaithful(Lookup(now', r.fqid), es[j..], pos);
        OneMore(now, now', es, j, pos);
        batch := AddEvent(batch, es[j], pos, table, scope, now');
        now' := now'[r.fqid := NextRow(Lookup(now', r.fqid), es[j], pos)];
      }
      assert es[..|es|] == es;
      b' := Ok(batch);
    }

    /** `update_id_sequences`: an id sequence never falls back. */
    method UpdateIdSequences(maxIds: map<Collection, int>, ghost table: Models, ghost now: Models)
      requires SequencesOk(table, db.idSequences) && MaxIdsOk(table, maxIds, now)
      modifies db`idSequences
      ensures db.idSequences.Keys == old(db.idSequences).Keys + maxIds.Keys
      ensures forall c | c in db.idSequences :: db.idSequences[c] == Greatest(old(db.idSequences), maxIds, c)
      ensures SequencesOk(now, db.idSequences) && SequencesGrow(old(db.idSequences), db.idSequences)
    {
      hide SequencesOk, MaxIdsOk, SequencesGrow, Greatest;
      var raised := RaiseSequences(db.idSequences, maxIds);
      GreatestIsAbove(db.idSequences, maxIds, table, now, raised);
      db.idSequences := raised;
    }

    method WriteModelUpdates(fetched: Fetched)
      requires forall f | f in fetched :: META_DELETED in fetched[f]
      modifies db`models
      ensures db.models == old(db.models) +
        (map f | f in fetched :: ModelRow(fetched[f], fetched[f][META_DELETED] == Bool(true)))
    {
      var rows := map f | f in fetched :: ModelRow(fetched[f], fetched[f][META_DELETED] == Bool(true));
      db.models := db.models + rows;
    }

    /** `write_events`: the ids come back in the order of the rows. */
    method WriteEvents(es: seq<Event>, position: Position) returns (ids: seq<nat>)
      requires IdsBelow(db.events, db.eventSeq)
      modifies db`events, db`eventSeq
      ensures Inserted(old(db.events), db.events, old(db.eventSeq), position, es) && IdsBelow(db.events, db.eventSeq)
      ensures db.eventSeq == old(db.eventSeq) + |es|
      ensures |ids| == |es| && forall i | 0 <= i < |ids| :: ids[i] == old(db.eventSeq) + i
    {
      ids := [];
      ghost var first := db.eventSeq;
      for i := 0 to |es|
        invariant db.eventSeq == first + i && IdsBelow(db.events, db.eventSeq)
        invariant Inserted(old(db.events), db.events, first, position, es[..i])
        invariant |ids| == i && forall j | 0 <= j < i :: ids[j] == first + j
      {
        db.events := db.events[db.eventSeq := EventRow(position, i + 1, es[i])];
        ids := ids + [db.eventSeq];
        db.eventSeq := db.eventSeq + 1;
      }
      assert es[..|es|] == es;
    }

    method InsertModifiedCollectionfields(modified: set<CollectionField>, position: Position)
      modifies db`collectionfields
      ensures db.collectionfields == old(db.collectionfields) + (map cf | cf in modified :: position)
    {
      ghost var before := db.collectionfields;
      var todo := modified;
      while todo != {}
        invariant todo <= modified
        invariant db.collectionfields == before + (map cf | cf in modified - todo :: position)
        decreases |todo|
      {
        var cf := Pick(todo);
        todo := todo - {cf};
        db.collectionfields := db.collectionfields[cf := position];
      }
    }

    /** Each event is connected to each collectionfield it modifies, never twice to the same one. */
    method ConnectEvents(ids: seq<nat>, indices: map<CollectionField, seq<nat>>, ghost first: nat)
      requires forall cf, i | cf in indices && i in indices[cf] :: i < |ids|
      requires forall cf, i, j | cf in indices && 0 <= i < j < |indices[cf]| :: indices[cf][i] < indices[cf][j]
      requires forall i | 0 <= i < |ids| :: ids[i] == first + i
      requires forall id, cf | (id, cf) in db.links :: id < first
      modifies db`links
      ensures forall id, cf :: (id, cf) in db.links <==>
        (id, cf) in old(db.links) || (first <= id < first + |ids| && cf in indices && (id - first) in indices[cf])
    {
      ghost var before := db.links;
      var todo := indices.Keys;
      while todo != {}
        invariant todo <= indices.Keys
        invariant forall id, cf :: (id, cf) in db.links <==>
          || (id, cf) in before
          || (first <= id < first + |ids| && cf in indices && cf !in todo && (id - first) in indices[cf])
        decreases |todo|
      {
        var cf := Pick(todo);
        todo := todo - {cf};
        ConnectField(ids, cf, indices[cf], first);
      }
    }

    method ConnectField(ids: seq<nat>, cf: CollectionField, events: seq<nat>, ghost first: nat)
      requires forall i | i in events :: i < |ids|
      requires forall i, j | 0 <= i < j < |events| :: events[i] < events[j]
      requires forall i | 0 <= i < |ids| :: ids[i] == first + i
      requires forall id | first <= id :: (id, cf) !in db.links
      modifies db`links
      ensures forall id, g :: (id, g) in db.links <==>
        (id, g) in old(db.links) || (g == cf && first <= id < first + |ids| && (id - first) in events)
    {
      ghost var before := db.links;
      for i := 0 to |events|
        invariant forall id, g :: (id, g) in db.links <==>
          (id, g) in before || (g == cf && first <= id < first + |ids| && (id - first) in events[..i])
      {
        assert events[i] in events;
        assert events[i] !in events[..i];
        // the primary key of the table
        assert (ids[events[i]], cf) !in db.links;
        db.links := db.links + {(ids[events[i]], cf)};
      }
      assert events[..|events|] == events;
    }

    /** The second half of `insert_events`: everything gathered goes to the tables. */
    method WriteBatch(batch: Batch, position: Position, ghost log: Log, ghost scope: set<Fqid>, ghost now: Models)
      requires position > 0
      requires HistoryOk(log.ps, position - 1, log.hist, db.events, db.eventSeq) && CacheOk(log.ps, log.hist, db.models)
      requires IndexOk(log, db.events, db.collectionfields, db.links, db.indexedFrom)
      requires SequencesOk(db.models, db.idSequences) && IdsBelow(db.events, db.eventSeq)
      requires BatchOk(db.models, scope, position, batch, now)
      modifies db`events, db`eventSeq, db`models, db`idSequences, db`collectionfields, db`links
      ensures db.models == now && db.eventSeq >= old(db.eventSeq)
      ensures HistoryOk(
        log.ps + [position], position, log.hist + [StoredEvents(batch.events)], db.events, db.eventSeq)
      ensures CacheOk(log.ps + [position], log.hist + [StoredEvents(batch.events)], now)
      ensures IndexOk(Log(log.ps + [position], log.hist + [StoredEvents(batch.events)]),
        db.events, db.collectionfields, db.links, db.indexedFrom)
      ensures SequencesOk(now, db.idSequences)
      ensures SequencesGrow(old(db.idSequences), db.idSequences)
    {
      hide HistoryOk, CacheOk, IndexOk, SequencesOk, BatchOk, IndicesOk, MaxIdsOk, Inserted, IdsBelow, Mirrors, RowOk;
      hide ReplayEvents, TouchesIn, SequencesGrow, StoredEvents;
      ghost var t, cfs, links, table, first := db.events, db.collectionfields, db.links, db.models, db.eventSeq;
      BatchParts(table, scope, position, batch, now);
      LinksBelow(log, t, cfs, links, db.indexedFrom, first);
      UpdateIdSequences(batch.maxIds, table, now);
      WrittenBack(batch.models, now, scope, table);
      WriteModelUpdates(batch.models);
      var ids := WriteEvents(StoredEvents(batch.events), position);
      InsertModifiedCollectionfields(batch.indices.Keys, position);
      ConnectEvents(ids, batch.indices, first);
      InsertedStore(log, t, db.events, first, position, StoredEvents(batch.events), table, now, batch,
        cfs, db.collectionfields, links, db.links, db.indexedFrom, position - 1, db.eventSeq);
    }

    /** `insert_events`, in the transaction of the caller: on an error the caller rolls back. */
    method InsertEvents(rs: seq<RequestEvent>, migrationIndex: int) returns (r: Result<Position>)
      requires StoreOk(db) && forall e | e in rs :: ValidRequest(e)
      modifies db`positions, db`positionSeq, db`history, db`events, db`eventSeq, db`models, db`idSequences
      modifies db`collectionfields, db`links
      ensures r.Ok? ==> StoreOk(db)
      ensures r.Ok? ==> Appended(old(db.positions), db.positions, old(db.history), db.history, r.value, migrationIndex)
      ensures r.Ok? <==> rs != [] && LegalAll(old(db.models), rs, db.positionSeq)
      ensures r.Err? ==>
        if rs == [] then r.error == BadCoding else RefusedWith(old(db.models), rs, db.positionSeq) == Some(r.error)
      ensures r.Ok? ==> db.history == old(db.history) + [AllEvents(old(db.models), rs, r.value)]
      ensures r.Ok? ==> r.value == db.positionSeq > old(db.positionSeq)
      ensures db.positionSeq >= old(db.positionSeq) && db.eventSeq >= old(db.eventSeq)
      ensures r.Ok? ==> SequencesGrow(old(db.idSequences), db.idSequences)
    {
      hide HistoryOk, CacheOk, IndexOk, SequencesOk, LegalAll, AllEvents, ValidRequest, BatchOk, IdsBelow;
      if rs == [] {
        return Err(BadCoding);
      }
      ghost var log := Log(PositionsOf(db.positions), db.history);
      StoreParts(db);
      var position := CreatePosition(migrationIndex);
      PositionsBelow(log.ps, old(db.positionSeq), log.hist, db.events, db.eventSeq, position - 1);
      ghost var now;
      var translated;
      translated, now := TranslateAll(rs, position);
      if translated.Err? {
        return Err(translated.error);
      }
      WriteBatch(translated.value, position, log, set e | e in rs :: e.fqid, now);
      db.history := db.history + [StoredEvents(translated.value.events)];
      assert PositionsOf(db.positions) == log.ps + [position];
      r := Ok(position);
    }

    /** The tables of the writer as they were before the transaction. */
    method RollBack(
      positions: seq<PositionRow>, events: EventTable, models: Models, idSequences: IdSequences,
      collectionfields: CollectionFields, links: Links, ghost history: seq<seq<Event>>)
      modifies db`positions, db`history, db`events, db`models, db`idSequences, db`collectionfields, db`links
      ensures db.positions == positions && db.history == history && db.events == events && db.models == models
      ensures db.idSequences == idSequences && db.collectionfields == collectionfields && db.links == links
    {
      db.positions, db.history, db.events, db.models := positions, history, events, models;
      db.idSequences, db.collectionfields, db.links := idSequences, collectionfields, links;
    }

    /** A transaction with nothing but these events. */
    method InsertInTransaction(rs: seq<RequestEvent>, migrationIndex: int) returns (r: Result<Position>)
      requires StoreOk(db) && forall e | e in rs :: ValidRequest(e)
      modifies db`positions, db`positionSeq, db`history, db`events, db`eventSeq, db`models, db`idSequences
      modifies db`collectionfields, db`links
      ensures StoreOk(db)
      ensures r.Ok? ==> Appended(old(db.positions), db.positions, old(db.history), db.history, r.value, migrationIndex)
      ensures r.Ok? <==> rs != [] && LegalAll(old(db.models), rs, db.positionSeq)
      ensures r.Err? ==>
        if rs == [] then r.error == BadCoding else RefusedWith(old(db.models), rs, db.positionSeq) == Some(r.error)
      ensures r.Ok? ==> db.history == old(db.history) + [AllEvents(old(db.models), rs, r.value)]
      ensures r.Ok? ==> r.value == db.positionSeq > old(db.positionSeq)
      ensures SequencesGrow(old(db.idSequences), db.idSequences)
      ensures r.Err? ==> Restored(db)
    {
      hide StoreOk, LegalAll, AllEvents, ValidRequest;
      var positions, events, models, idSequences := db.positions, db.events, db.models, db.idSequences;
      var collectionfields, links := db.collectionfields, db.links;
      ghost var history := db.history;
      r := InsertEvents(rs, migrationIndex);
      if r.Err? {
        RollBack(positions, events, models, idSequences, collectionfields, links, history);
        StoreRolledBack(db);
      }
    }

    /** `reserve_next_ids`: the ids up to the new sequence; no model has one of them yet. */
    method ReserveNextIds(collection: Collection, amount: int) returns (r: Result<seq<int>>)
      requires StoreOk(db)
      modifies db`idSequences
      ensures StoreOk(db) && SequencesGrow(old(db.idSequences), db.idSequences)
      ensures r.Ok? <==> amount >= 1 && 1 <= |collection| <= COLLECTION_MAX_LEN
      ensures r.Err? ==> r.error == InvalidFormat && db.idSequences == old(db.idSequences)
      ensures r.Ok? ==> |r.value| == amount && forall i | 0 <= i < amount :: r.value[i] == r.value[0] + i
      ensures r.Ok? ==>
        r.value[0] == if collection in old(db.idSequences) then old(db.idSequences)[collection] else 1
      ensures r.Ok? ==> db.idSequences == old(db.idSequences)[collection := r.value[0] + amount]
      ensures r.Ok? ==> forall f | f in db.models && f.collection == collection :: f.id < r.value[0]
    {
      hide HistoryOk, CacheOk, IndexOk;
      if amount <= 0 {
        return Err(InvalidFormat);
      }
      if |collection| > COLLECTION_MAX_LEN || |collection| == 0 {
        return Err(InvalidFormat);
      }
      var excluded := amount + 1;
      var newMaxId := if collection in db.idSequences then db.idSequences[collection] + excluded - 1 else excluded;
      db.idSequences := db.idSequences[collection := newMaxId];
      var first := newMaxId - amount;
      r := Ok(seq(amount, i => first + i));
    }
  }

  /** The tables of the writer are as they were. */
  twostate predicate Restored(db: Database)
    reads db
  {
    && db.positions == old(db.positions) && db.history == old(db.history)
    && db.events == old(db.events) && db.models == old(db.models) && db.idSequences == old(db.idSequences)
    && db.collectionfields == old(db.collectionfields) && db.links == old(db.links)
  }

  /** What a write leaves alone, and sequences that only go on. */
  twostate predicate LeftAlone(db: Database)
    reads db
  {
    && db.indexedFrom == old(db.indexedFrom) && db.migrations == old(db.migrations)
    && db.migrationPositions == old(db.migrationPositions) && db.migrationEvents == old(db.migrationEvents)
    && db.migrationEventSeq == old(db.migrationEventSeq) && db.keyframes == old(db.keyframes)
    && db.positionSeq >= old(db.positionSeq) && db.eventSeq >= old(db.eventSeq)
  }

  twostate lemma StoreRolledBack(db: Database)
    requires old(StoreOk(db)) && Restored(db) && db.indexedFrom == old(db.indexedFrom)
    requires db.positionSeq >= old(db.positionSeq) && db.eventSeq >= old(db.eventSeq)
    ensures StoreOk(db)
  {
    hide IndexOk, HoldsHistory, SequencesOk, CacheOk, Ascending;
  }

  /** The upsert of the highest ids, row by row: a sequence that is there already is only raised. */
  method RaiseSequences(sequences: IdSequences, maxIds: IdSequences) returns (r: IdSequences)
    ensures forall c :: c in r <==> c in sequences || c in maxIds
    ensures forall c | c in r :: r[c] == Greatest(sequences, maxIds, c)
  {
    r := sequences;
    var todo := maxIds.Keys;
    while todo != {}
      invariant todo <= maxIds.Keys
      invariant forall c :: c in r <==> c in sequences || (c in maxIds && c !in todo)
      invariant forall c | c in r :: r[c] == if c in todo then sequences[c] else Greatest(sequences, maxIds, c)
      decreases |todo|
    {
      var c := Pick(todo);
      todo := todo - {c};
      var current := if c in r then r[c] else maxIds[c];
      r := r[c := if current > maxIds[c] then current else maxIds[c]];
    }
  }

  lemma GreatestIsAbove(before: IdSequences, maxIds: IdSequences, table: Models, now: Models, after: IdSequences)
    requires SequencesOk(table, before) && MaxIdsOk(table, maxIds, now)
    requires forall c :: c in after <==> c in before || c in maxIds
    requires forall c | c in after :: after[c] == Greatest(before, maxIds, c)
    ensures SequencesOk(now, after) && SequencesGrow(before, after)
  {
    forall f | f in now
      ensures f.collection in after && f.id < after[f.collection]
    {
      assert f in table || f.collection in maxIds;
    }
  }

  lemma PositionsBelow(ps: seq<Position>, last: nat, hist: seq<seq<Event>>, t: EventTable, next: nat, last': nat)
    requires HistoryOk(ps, last, hist, t, next) && last <= last'
    ensures HistoryOk(ps, last', hist, t, next)
  {}

  /** One position more, with the given index; its events are the newest entry of the history. */
  ghost predicate Appended(
    rows: seq<PositionRow>, rows': seq<PositionRow>, hist: seq<seq<Event>>, hist': seq<seq<Event>>,
    p: Position, mi: int)
  {
    && rows' == rows + [PositionRow(p, mi)]
    && |hist'| == |hist| + 1 && hist == hist'[..|hist|]
  }

  lemma StoreParts(db: Database)
    requires StoreOk(db)
    ensures RowsOk(db.models) && IdsBelow(db.events, db.eventSeq) && SequencesOk(db.models, db.idSequences)
    ensures HistoryOk(PositionsOf(db.positions), db.positionSeq, db.history, db.events, db.eventSeq)
    ensures CacheOk(PositionsOf(db.positions), db.history, db.models)
    ensures IndexOk(
      Log(PositionsOf(db.positions), db.history), db.events, db.collectionfields, db.links, db.indexedFrom)
  {
    HistoryRowsOk(PositionsOf(db.positions), db.history, |db.history|);
  }

  lemma BatchParts(table: Models, scope: set<Fqid>, pos: Position, b: Batch, now: Models)
    requires BatchOk(table, scope, pos, b, now)
    ensures Mirrors(b.models, now, scope) && RowsOk(now) && MaxIdsOk(table, b.maxIds, now)
    ensures table.Keys <= now.Keys && forall f | f !in scope :: Lookup(now, f) == Lookup(table, f)
    ensures ReplayEvents(table, StoredEvents(b.events), pos) == Ok(now) && IndicesOk(table, pos, b)
    ensures forall f | f in b.models :: META_DELETED in b.models[f]
    ensures forall cf, i | cf in b.indices && i in b.indices[cf] :: i < |StoredEvents(b.events)|
    ensures forall cf, i, j | cf in b.indices && 0 <= i < j < |b.indices[cf]| :: b.indices[cf][i] < b.indices[cf][j]
  {
    forall cf, i | cf in b.indices && i in b.indices[cf]
      ensures i < |StoredEvents(b.events)|
    {
      assert TouchesIn(table, StoredEvents(b.events), pos, i, cf);
    }
  }

  lemma LinksBelow(log: Log, t: EventTable, cfs: CollectionFields, links: Links, from: Position, first: nat)
    requires IndexOk(log, t, cfs, links, from) && IdsBelow(t, first)
    ensures forall id, cf | (id, cf) in links :: id < first
  {
    forall id, cf | (id, cf) in links
      ensures id < first
    {
      assert LinkOk(log, t, id, cf);
    }
  }

  lemma TouchesAtNew(log: Log, p: Position, es: seq<Event>, table: Models, i: nat, cf: CollectionField)
    requires |log.ps| == |log.hist| && ReplayHistory(log.ps, log.hist, |log.ps|) == Ok(table)
    ensures Touches(Log(log.ps + [p], log.hist + [es]), |log.ps|, i, cf) <==> TouchesIn(table, es, p, i, cf)
  {
    var n := |log.ps|;
    var log' := Log(log.ps + [p], log.hist + [es]);
    assert log'.ps[..n] == log.ps[..n] && log'.hist[..n] == log.hist[..n];
    HistoryFrame(log.ps, log.hist, log'.ps, log'.hist, n);
  }

  /** The tables after an insertion satisfy what the tables before satisfied. */
  lemma InsertedStore(
    log: Log, t: EventTable, t': EventTable, first: nat, p: Position, es: seq<Event>, table: Models, now: Models,
    b: Batch, cfs: CollectionFields, cfs': CollectionFields, links: Links, links': Links, from: Position,
    last: nat, next: nat)
    requires HistoryOk(log.ps, last, log.hist, t, first) && CacheOk(log.ps, log.hist, table)
    requires IndexOk(log, t, cfs, links, from)
    requires p > last && Inserted(t, t', first, p, es) && IdsBelow(t', next)
    requires es == StoredEvents(b.events) && ReplayEvents(table, es, p) == Ok(now) && IndicesOk(table, p, b)
    requires cfs' == cfs + (map cf | cf in b.indices :: p)
    requires forall id, cf :: (id, cf) in links' <==>
      (id, cf) in links || (first <= id < first + |es| && cf in b.indices && (id - first) in b.indices[cf])
    ensures HistoryOk(log.ps + [p], p, log.hist + [es], t', next)
    ensures CacheOk(log.ps + [p], log.hist + [es], now)
    ensures IndexOk(Log(log.ps + [p], log.hist + [es]), t', cfs', links', from)
  {
    hide Inserted, IndexOk, Holds, ReplayEvents, TouchesIn, Touches, IndicesOk, Connected;
    var n, log' := |log.ps|, Log(log.ps + [p], log.hist + [es]);
    InsertedHolds(log, log', t, t', first, p, es);
    assert log'.ps[..n] == log.ps[..n] && log'.hist[..n] == log.hist[..n];
    HistoryFrame(log.ps, log.hist, log'.ps, log'.hist, n);
    ConnectedAtNew(log, p, es, table, b, cfs, cfs', links, links', first);
    forall i | 0 <= i < n
      ensures log.ps[i] < p
    {
      assert log.ps[i] in log.ps;
    }
    AppendKeepsIndex(log, log', t, t', first, p, es, cfs, cfs', links, links', from);
  }

  lemma ConnectedAtNew(
    log: Log, p: Position, es: seq<Event>, table: Models, b: Batch,
    cfs: CollectionFields, cfs': CollectionFields, links: Links, links': Links, first: nat)
    requires |log.ps| == |log.hist| && ReplayHistory(log.ps, log.hist, |log.ps|) == Ok(table)
    requires es == StoredEvents(b.events) && IndicesOk(table, p, b)
    requires cfs' == cfs + (map cf | cf in b.indices :: p)
    requires forall id, cf :: (id, cf) in links' <==>
      (id, cf) in links || (first <= id < first + |es| && cf in b.indices && (id - first) in b.indices[cf])
    ensures Connected(Log(log.ps + [p], log.hist + [es]), |log.ps|, cfs, cfs', links, links', first)
  {
    hide TouchesIn, Touches, ReplayHistory, ReplayEvents;
    var n, log' := |log.ps|, Log(log.ps + [p], log.hist + [es]);
    forall i: nat, cf
      ensures Touches(log', n, i, cf) <==> cf in b.indices && i in b.indices[cf]
    {
      TouchesAtNew(log, p, es, table, i, cf);
    }
    forall cf
      ensures TouchedNow(log', n, cf) <==> cf in b.indices
    {
      if cf in b.indices {
        assert Touches(log', n, b.indices[cf][0], cf);
        TouchesBound(log', n, b.indices[cf][0], cf);
      }
    }
  }

  lemma TouchesBound(log: Log, k: nat, i: nat, cf: CollectionField)
    requires Touches(log, k, i, cf)
    ensures k < |log.hist| && i < |log.hist[k]|
  {}
}
