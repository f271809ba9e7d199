/** Trimming the lock index, and why no verdict on a recent lock depends on when it was trimmed. */
module Trimming {
  import opened Types
  import opened Replay
  import opened DbEvents
  import opened Tables
  import opened LockIndex
  import opened LockLaws
  import opened Backend

  /** The collectionfields whose newest event is not expired; the links of the others go by cascade. */
  function KeptFields(cfs: CollectionFields, expired: set<Position>): CollectionFields {
    map cf | cf in cfs && cfs[cf] !in expired :: cfs[cf]
  }

  function KeptLinks(t: EventTable, cfs: CollectionFields, links: Links, expired: set<Position>): Links {
    set link | link in links && link.1 in cfs && !(link.0 in t && t[link.0].position in expired)
  }

  /** The index after trimming is as right as before, and complete from the last trimmed position on. */
  lemma TrimmedIndex(
    log: Log, t: EventTable, cfs: CollectionFields, links: Links, from: Position, expired: set<Position>,
    from': Position)
    requires IndexOk(log, t, cfs, links, from) && from <= from' && forall p | p in expired :: p <= from'
    ensures IndexOk(log, t, KeptFields(cfs, expired), KeptLinks(t, KeptFields(cfs, expired), links, expired), from')
  {
    hide LinkOk, ModelsBefore, TouchedFields;
    var cfs' := KeptFields(cfs, expired);
    var links' := KeptLinks(t, cfs', links, expired);
    forall k: nat, w: nat, id: nat, cf | Touches(log, k, w, cf) && k < |log.ps| && IsRow(t, id, log.ps[k], w + 1)
        && log.ps[k] > from'
      ensures (id, cf) in links'
    {
      assert (id, cf) in links && t[id].position <= cfs[cf];
    }
    forall cf | cf in cfs'
      ensures Newest(t, cfs', links', cf)
    {
      assert Newest(t, cfs, links, cf);
      var id :| id in t && (id, cf) in links && t[id].position == cfs[cf];
      assert (id, cf) in links';
    }
  }

  /** The two deletes, given the positions whose timestamps are before the threshold. */
  method Trim(db: Database, expired: set<Position>)
    requires StoreOk(db) && forall p | p in expired :: p in PositionsOf(db.positions)
    modifies db`collectionfields, db`links, db`indexedFrom
    ensures StoreOk(db)
    ensures db.indexedFrom >= old(db.indexedFrom)
    ensures db.indexedFrom == old(db.indexedFrom) || db.indexedFrom in expired
    ensures forall p | p in expired :: p <= db.indexedFrom
    ensures db.collectionfields == KeptFields(old(db.collectionfields), expired)
    ensures db.links == KeptLinks(db.events, db.collectionfields, old(db.links), expired)
  {
    hide HistoryOk, CacheOk, IndexOk, SequencesOk;
    ghost var log, links := Log(PositionsOf(db.positions), db.history), db.links;
    ghost var from := LastExpired(expired, db.indexedFrom);
    TrimmedIndex(log, db.events, db.collectionfields, links, db.indexedFrom, expired, from);
    // delete from collectionfields, with its cascade
    db.collectionfields :=
      map cf | cf in db.collectionfields && db.collectionfields[cf] !in expired :: db.collectionfields[cf];
    db.links := set link | link in db.links && link.1 in db.collectionfields;
    // delete from events_to_collectionfields
    db.links := set link | link in db.links && !(link.0 in db.events && db.events[link.0].position in expired);
    db.indexedFrom := from;
    assert db.links == KeptLinks(db.events, db.collectionfields, links, expired);
  }

  ghost function LastExpired(expired: set<Position>, from: Position): (last: Position)
    ensures last >= from && (last == from || last in expired) && forall p | p in expired :: p <= last
    decreases |expired|
  {
    if exists p :: p in expired then
      var p :| p in expired;
      var rest := LastExpired(expired - {p}, from);
      assert forall q | q in expired :: q == p || q in expired - {p};
      if p > rest then p else rest
    else from
  }

  // ---------------------------------------------------------------- verdicts

  /** A model that matches was modified after the position. */
  ghost predicate FilteredTouched(
    log: Log, models: Models, cf: CollectionField, p: Position, matches: ModelRow -> bool)
  {
    exists f: Fqid ::
      f in models && matches(models[f]) && f.collection == cf.collection && TouchedAfter(log, f, cf.field, p)
  }

  /** The verdict on a filtered lock, too, is decided by the history from the start of the index on. */
  lemma FilteredVerdict(
    log: Log, t: EventTable, cfs: CollectionFields, links: Links, from: Position, models: Models, cf: CollectionField,
    p: Position, matches: ModelRow -> bool)
    requires HoldsHistory(t, log.ps, log.hist) && Ascending(log.ps) && IndexOk(log, t, cfs, links, from) && from <= p
    ensures FilteredBroken(t, links, models, cf, p, matches) <==> FilteredTouched(log, models, cf, p, matches)
  {
    hide HoldsHistory, IndexOk, TouchedAfter;
    if FilteredBroken(t, links, models, cf, p, matches) {
      var id :| id in t && t[id].position > p && (id, cf) in links
        && t[id].event.fqid in models && matches(models[t[id].event.fqid]);
      LinkCollection(log, t, cfs, links, from, id, cf);
      FqfieldVerdict(log, t, cfs, links, from, t[id].event.fqid, cf.field, p);
      assert cf == CollectionField(t[id].event.fqid.collection, cf.field);
      assert FqfieldBroken(t, links, t[id].event.fqid, cf.field, p);
    }
    if FilteredTouched(log, models, cf, p, matches) {
      var f :| f in models && matches(models[f]) && f.collection == cf.collection && TouchedAfter(log, f, cf.field, p);
      FqfieldVerdict(log, t, cfs, links, from, f, cf.field, p);
      var id :| id in t && t[id].event.fqid == f && t[id].position > p
        && (id, CollectionField(f.collection, cf.field)) in links;
      assert cf == CollectionField(f.collection, cf.field);
    }
  }

  lemma LinkCollection(
    log: Log, t: EventTable, cfs: CollectionFields, links: Links, from: Position, id: nat, cf: CollectionField)
    requires HoldsHistory(t, log.ps, log.hist) && Ascending(log.ps) && IndexOk(log, t, cfs, links, from)
    requires (id, cf) in links
    ensures id in t && t[id].event.fqid.collection == cf.collection
  {
    hide ModelsBefore, HoldsHistory, TouchedFields;
    assert LinkOk(log, t, id, cf);
    var k: nat :| k < |log.ps| && log.ps[k] == t[id].position && Touches(log, k, t[id].weight - 1, cf);
    LockLaws.RowOf(log, t, id, k);
  }

  /** Two stores with one history but different trims, at any time. */
  ghost predicate SameHistory(db: Database, other: Database)
    reads db, other
  {
    && PositionsOf(db.positions) == PositionsOf(other.positions)
    && db.history == other.history
  }

  /** Trimming is safe: no verdict on a lock at or after every trimmed position depends on it. */
  lemma TrimKeepsVerdicts(
    db: Database, other: Database, f: Fqid, cf: CollectionField, p: Position, matches: ModelRow -> bool)
    requires StoreOk(db) && StoreOk(other) && SameHistory(db, other)
    requires db.indexedFrom <= p && other.indexedFrom <= p
    ensures FqidBroken(db.events, f, p) <==> FqidBroken(other.events, f, p)
    ensures FqfieldBroken(db.events, db.links, f, cf.field, p) <==>
      FqfieldBroken(other.events, other.links, f, cf.field, p)
    ensures CollectionFieldBroken(db.collectionfields, cf, p) <==> CollectionFieldBroken(other.collectionfields, cf, p)
    ensures FilteredBroken(db.events, db.links, db.models, cf, p, matches)
      <==> FilteredBroken(other.events, other.links, other.models, cf, p, matches)
  {
    hide IndexOk, HoldsHistory, ReplayHistory, FqidBroken, FqfieldBroken, CollectionFieldBroken, FilteredBroken;
    hide TouchedAfter, FilteredTouched, SequencesOk, IdsBelow;
    var log := Log(PositionsOf(db.positions), db.history);
    FqidVerdict(log, db.events, f, p);
    FqidVerdict(log, other.events, f, p);
    FqfieldVerdict(log, db.events, db.collectionfields, db.links, db.indexedFrom, f, cf.field, p);
    FqfieldVerdict(log, other.events, other.collectionfields, other.links, other.indexedFrom, f, cf.field, p);
    CollectionFieldVerdict(log, db.events, db.collectionfields, db.links, db.indexedFrom, cf, p);
    CollectionFieldVerdict(log, other.events, other.collectionfields, other.links, other.indexedFrom, cf, p);
    FilteredVerdict(log, db.events, db.collectionfields, db.links, db.indexedFrom, db.models, cf, p, matches);
    FilteredVerdict(
      log, other.events, other.collectionfields, other.links, other.indexedFrom, other.models, cf, p, matches);
  }

  ghost predicate EventAt(log: Log, f: Fqid, k: nat, w: nat) {
    k < |log.ps| && k < |log.hist| && w < |log.hist[k]| && log.hist[k][w].fqid == f
  }

  lemma FqidVerdict(log: Log, t: EventTable, f: Fqid, p: Position)
    requires HoldsHistory(t, log.ps, log.hist) && Ascending(log.ps)
    ensures FqidBroken(t, f, p) <==> exists k: nat, w: nat :: EventAt(log, f, k, w) && log.ps[k] > p
  {
    hide Holds;
    if FqidBroken(t, f, p) {
      var id :| id in t && t[id].event.fqid == f && t[id].position > p;
      var k: nat :| k < |log.ps| && log.ps[k] == t[id].position;
      LockLaws.RowOf(log, t, id, k);
      assert EventAt(log, f, k, t[id].weight - 1);
    }
    if k: nat, w: nat :| EventAt(log, f, k, w) && log.ps[k] > p {
      var id := RowFor(log, t, k, w);
    }
  }
}
