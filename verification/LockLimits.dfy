/** Where the verdict on a lock differs from what was locked, and exactly when it does. */
module LockLimits {
  import opened Types
  import opened Replay
  import opened Tables
  import opened DbEvents
  import opened WriteLaws
  import opened LockIndex
  import opened LockLaws
  import opened Backend
  import opened WriteRequests
  import opened LockQueries
  import opened OccLockers
  import opened Trimming
  import opened Writers

  // ---------------------------------------------------------------- locks at the current position

  /** No lock is older than the last position. */
  ghost predicate LocksAreCurrent(request: WriteRequest, ps: seq<Position>) {
    forall p | p in ps ::
      FieldLocksFrom(request, p) && forall f | f in request.lockedFqids :: p <= request.lockedFqids[f]
  }

  /** A request that has read everything at the current position is not refused for its locks. */
  lemma CurrentLocksPass(s: Snapshot, holds: ModelSemantics, request: WriteRequest)
    requires SnapshotOk(s) && FiltersOk(request.lockedCollectionFields) && LocksAreCurrent(request, s.log.ps)
    ensures LockVerdict(s.tables, holds, request) == Ok(())
  {
    hide ReplayHistory, Touches, Holds, Ascending, FiltersOk, Matches, CacheOk, IsRow, BrokenKeys;
    OkIsComparable(request.lockedCollectionFields);
    var t := s.tables;
    assert forall id | id in t.events :: t.events[id].position in s.log.ps;
    forall key
      ensures !KeyBroken(t, holds, request, key)
    {
      if key.CollectionFieldKey? && key.cf in t.collectionfields {
        assert Newest(t.events, t.collectionfields, t.links, key.cf);
        assert t.collectionfields[key.cf] in s.log.ps;
      }
    }
    forall key
      ensures key !in BrokenKeys(t, holds, request)
    {
      KeyNamed(t, holds, request, key);
    }
    assert BrokenKeys(t, holds, request) == {};
  }

  /** Unless it gives an index to a datastore in use, only its events then decide whether it is taken. */
  lemma CurrentIsTaken(s: Snapshot, holds: ModelSemantics, request: WriteRequest)
    requires SnapshotOk(s) && FiltersOk(request.lockedCollectionFields) && LocksAreCurrent(request, s.log.ps)
    requires request.migrationIndex.Some? ==> s.log.ps == []
    ensures Refusal(s, holds, request) == RefusedWith(s.tables.models, request.events, 0)
  {
    hide SnapshotOk, FiltersOk, RefusedWith, LockVerdict, LocksAreCurrent;
    CurrentLocksPass(s, holds, request);
  }

  /** A broken lock refuses the request whatever its events are, and is named. */
  lemma BrokenIsRefused(s: Snapshot, holds: ModelSemantics, request: WriteRequest, key: LockKey)
    requires request.migrationIndex.Some? ==> s.log.ps == []
    requires FiltersOk(request.lockedCollectionFields) && KeyBroken(s.tables, holds, request, key)
    ensures Refusal(s, holds, request).Some?
    ensures var error := Refusal(s, holds, request).value;
      error.ModelLocked? && key in error.keys && forall k | k in error.keys :: KeyBroken(s.tables, holds, request, k)
  {
    hide KeyBroken, BrokenKeys, FiltersOk, RefusedWith;
    OkIsComparable(request.lockedCollectionFields);
    KeyNamed(s.tables, holds, request, key);
    forall k
      ensures k in BrokenKeys(s.tables, holds, request) ==> KeyBroken(s.tables, holds, request, k)
    {
      KeyNamed(s.tables, holds, request, k);
    }
  }

  // ---------------------------------------------------------------- several positions for one model

  ghost predicate Smallest(locks: FqfieldLocks, f: Fqid, p: Position) {
    && (exists field :: (f, field) in locks && locks[(f, field)] == p)
    && (forall field | (f, field) in locks :: p <= locks[(f, field)])
  }

  /**
   * A lock on a field of a model is reported exactly when the field was modified after the smallest
   * position locked for that model. So no broken lock is missed.
   */
  lemma ReportedAtSmallest(t: EventTable, links: Links, locks: FqfieldLocks, f: Fqid, field: Field, p: Position)
    requires (f, field) in locks && Smallest(locks, f, p)
    ensures FqfieldReported(t, links, locks, f, field) <==> FqfieldBroken(t, links, f, field, p)
    ensures FqfieldBroken(t, links, f, field, locks[(f, field)]) ==> FqfieldReported(t, links, locks, f, field)
  {
    if FqfieldBroken(t, links, f, field, p) {
      var other :| (f, other) in locks && locks[(f, other)] == p;
      assert FqfieldBroken(t, links, f, field, locks[(f, other)]);
    }
    if FqfieldReported(t, links, locks, f, field) {
      var other :| (f, other) in locks && FqfieldBroken(t, links, f, field, locks[(f, other)]);
      var id :| id in t && t[id].event.fqid == f && t[id].position > locks[(f, other)]
        && (id, CollectionField(f.collection, field)) in links;
      assert t[id].position > p;
    }
  }

  /** The verdict on the field is the one at its own position. */
  ghost predicate OwnVerdict(s: Snapshot, locks: FqfieldLocks, f: Fqid, field: Field)
    requires (f, field) in locks
  {
    var t := s.tables;
    FqfieldReported(t.events, t.links, locks, f, field) <==>
    FqfieldBroken(t.events, t.links, f, field, locks[(f, field)])
  }

  /**
   * So a caller can count on the verdict on a field, whatever the datastore, exactly if the field is
   * locked at the smallest position locked for its model.
   */
  lemma OwnVerdictAtSmallest(locks: FqfieldLocks, f: Fqid, field: Field)
    requires (f, field) in locks && locks[(f, field)] >= 1 && !IsReserved(field)
    ensures (forall s | SnapshotOk(s) :: OwnVerdict(s, locks, f, field)) <==> Smallest(locks, f, locks[(f, field)])
  {
    hide SnapshotOk, FqfieldBroken, FqfieldReported;
    var p := locks[(f, field)];
    if Smallest(locks, f, p) {
      forall s | SnapshotOk(s)
        ensures OwnVerdict(s, locks, f, field)
      {
        ReportedAtSmallest(s.tables.events, s.tables.links, locks, f, field, p);
      }
    } else {
      var other :| (f, other) in locks && locks[(f, other)] < p;
      ReportedTooEarly(locks, f, field, other);
    }
  }

  /** A model created with the field at the locked position, in a datastore that holds nothing else. */
  ghost function CreatedAt(f: Fqid, field: Field, p: Position): Snapshot {
    var e := Create(f, map[field := Int(0)]);
    var modified := set g | g in TouchedFields(None, e) :: CollectionField(f.collection, g);
    var log := Log([p], [[e]]);
    var tables := LockTables(
      map[1 := EventRow(p, 1, e)], map cf | cf in modified :: p, set cf | cf in modified :: (1, cf),
      ReplayOrNothing(log, 1));
    Snapshot(log, tables, 0)
  }

  /** With a smaller position for another field of the model, a lock that holds can be reported. */
  lemma ReportedTooEarly(locks: FqfieldLocks, f: Fqid, field: Field, other: Field)
    requires (f, field) in locks && locks[(f, field)] >= 1 && !IsReserved(field)
    requires (f, other) in locks && locks[(f, other)] < locks[(f, field)]
    ensures var s := CreatedAt(f, field, locks[(f, field)]);
      && SnapshotOk(s) && FqfieldReported(s.tables.events, s.tables.links, locks, f, field)
      && !FqfieldBroken(s.tables.events, s.tables.links, f, field, locks[(f, field)])
  {
    hide SnapshotOk;
    var p := locks[(f, field)];
    var s := CreatedAt(f, field, p);
    CreatedIsIndexed(f, field, p);
    assert field in TouchedFields(None, Create(f, map[field := Int(0)]));
    assert (1, CollectionField(f.collection, field)) in s.tables.links && 1 in s.tables.events;
    assert FqfieldBroken(s.tables.events, s.tables.links, f, field, locks[(f, other)]);
  }

  lemma CreatedIsIndexed(f: Fqid, field: Field, p: Position)
    requires !IsReserved(field) && p >= 1
    ensures SnapshotOk(CreatedAt(f, field, p))
  {
    hide Touches, ReplayHistory, Holds, TouchedFields;
    var s := CreatedAt(f, field, p);
    var log, e, t := s.log, Create(f, map[field := Int(0)]), s.tables;
    ListedHolds(t.events, p, [1], [e]);
    CreatedTouches(f, field, p);
    forall k: nat, w: nat, id: nat, cf | Touches(log, k, w, cf)
      ensures k < |log.ps| && (IsRow(t.events, id, log.ps[k], w + 1) ==> (id, cf) in t.links)
    {
      TouchesBound(log, k, w, cf);
    }
    forall cf | cf in t.collectionfields
      ensures LinkOk(log, t.events, 1, cf) && Newest(t.events, t.collectionfields, t.links, cf)
    {
      assert (1, cf) in t.links && 1 in t.events;
      assert Touches(log, 0, 0, cf) && log.ps[0] == p;
    }
  }

  lemma CreatedTouches(f: Fqid, field: Field, p: Position)
    requires !IsReserved(field)
    ensures var s := CreatedAt(f, field, p);
      && ReplayHistory(s.log.ps, s.log.hist, 1).Ok?
      && forall cf :: Touches(s.log, 0, 0, cf) <==> (1, cf) in s.tables.links
  {
    var s := CreatedAt(f, field, p);
    var log, e := s.log, Create(f, map[field := Int(0)]);
    ReplayOne(map[], e, p);
    assert ReplayHistory(log.ps, log.hist, 0) == Ok(map[]);
    assert log.hist[0][..0] == [];
    forall cf
      ensures Touches(log, 0, 0, cf) <==> (1, cf) in s.tables.links
    {
      assert cf == CollectionField(cf.collection, cf.field);
    }
  }

  // ---------------------------------------------------------------- locks older than the index

  /** Nothing is left of the index up to the position from which it is complete. */
  ghost predicate LinksAfter(t: EventTable, links: Links, from: Position) {
    forall id, cf | (id, cf) in links && id in t :: t[id].position > from
  }

  lemma InsertKeepsLinksAfter(
    t: EventTable, t': EventTable, first: nat, p: Position, es: seq<Event>, links: Links, links': Links, from: Position)
    requires Inserted(t, t', first, p, es) && LinksAfter(t, links, from) && from < p
    requires forall id, cf | (id, cf) in links :: id in t
    requires forall id, cf | (id, cf) in links' && (id, cf) !in links :: first <= id
    ensures LinksAfter(t', links', from)
  {
    assert IdsBelow(t, first);
  }

  /** Trimming all positions up to some point leaves only links after it. */
  lemma TrimmedLinksAfter(
    log: Log, t: EventTable, cfs: CollectionFields, links: Links, expired: set<Position>, from: Position)
    requires HoldsHistory(t, log.ps, log.hist) && forall p | p in log.ps && p <= from :: p in expired
    ensures LinksAfter(t, KeptLinks(t, KeptFields(cfs, expired), links, expired), from)
  {
    hide Holds;
    forall id | id in t
      ensures t[id].position in log.ps
    {
    }
  }

  /** An expired lock is judged as one at the start of the index. */
  lemma ExpiredVerdicts(s: Snapshot, f: Fqid, cf: CollectionField, p: Position, matches: ModelRow -> bool)
    requires SnapshotOk(s) && LinksAfter(s.tables.events, s.tables.links, s.from) && p <= s.from
    ensures FqfieldBroken(s.tables.events, s.tables.links, f, cf.field, p) <==> TouchedAfter(s.log, f, cf.field, s.from)
    ensures CollectionFieldBroken(s.tables.collectionfields, cf, p) <==> CollectionTouchedAfter(s.log, cf, s.from)
    ensures FilteredBroken(s.tables.events, s.tables.links, s.tables.models, cf, p, matches)
      <==> FilteredTouched(s.log, s.tables.models, cf, s.from, matches)
  {
    hide HoldsHistory, ReplayHistory, TouchedAfter, CollectionTouchedAfter, FilteredTouched, LinkOk, Touches, IsRow;
    var t := s.tables;
    FqfieldVerdict(s.log, t.events, t.collectionfields, t.links, s.from, f, cf.field, s.from);
    CollectionFieldVerdict(s.log, t.events, t.collectionfields, t.links, s.from, cf, s.from);
    FilteredVerdict(s.log, t.events, t.collectionfields, t.links, s.from, t.models, cf, s.from, matches);
    if cf in t.collectionfields {
      assert Newest(t.events, t.collectionfields, t.links, cf);
    }
  }

  /** Modified after the locked position, but for the last time where the index no longer reaches. */
  ghost predicate LastTouchedIn(log: Log, f: Fqid, field: Field, p: Position, from: Position) {
    && (exists k: nat, w: nat :: TouchesField(log, k, w, f, field) && p < log.ps[k] <= from)
    && (forall k: nat, w: nat | TouchesField(log, k, w, f, field) :: log.ps[k] <= from)
  }

  ghost predicate CollectionLastTouchedIn(log: Log, cf: CollectionField, p: Position, from: Position) {
    && (exists k: nat, w: nat :: Touches(log, k, w, cf) && p < log.ps[k] <= from)
    && (forall k: nat, w: nat | Touches(log, k, w, cf) :: log.ps[k] <= from)
  }

  /** So it passes although the field was modified exactly in that case. */
  lemma ExpiredPassesWhen(s: Snapshot, f: Fqid, cf: CollectionField, p: Position)
    requires SnapshotOk(s) && LinksAfter(s.tables.events, s.tables.links, s.from) && p <= s.from
    ensures TouchedAfter(s.log, f, cf.field, p) && !FqfieldBroken(s.tables.events, s.tables.links, f, cf.field, p)
      <==> LastTouchedIn(s.log, f, cf.field, p, s.from)
    ensures CollectionTouchedAfter(s.log, cf, p) && !CollectionFieldBroken(s.tables.collectionfields, cf, p)
      <==> CollectionLastTouchedIn(s.log, cf, p, s.from)
  {
    hide SnapshotOk, FqfieldBroken, CollectionFieldBroken, TouchesField, Touches, LinksAfter;
    ExpiredVerdicts(s, f, cf, p, _ => true);
  }

  /** The case does occur: created at 1, locked there, changed at 2, and then trimmed. */
  lemma ExpiredLockPasses(f: Fqid)
    ensures var s := Changed(f, map[], {}, 2);
      && SnapshotOk(s) && LinksAfter(s.tables.events, s.tables.links, s.from)
      && !FqfieldBroken(s.tables.events, s.tables.links, f, "x", 1)
      && !CollectionFieldBroken(s.tables.collectionfields, CollectionField(f.collection, "x"), 1)
      && ReadsAt(s.log, f, 1, Int(0)) && ReadsAt(s.log, f, 2, Int(1))
  {
    hide ReplayHistory, IndexOk, Holds;
    var s := Changed(f, map[], {}, 2);
    ChangedHolds(f);
    EmptyIndex(s.log, s.tables.events, 2);
    ChangedReplay(f);
    CountsInChanged(f);
  }

  // ---------------------------------------------------------------- a history of two positions

  function ChangedLog(f: Fqid): Log {
    Log([1, 2], [[Create(f, map["x" := Int(0)])], [Update(f, map["x" := Int(1)])]])
  }

  /** A model created with the field, and updated, under a given state of the index. */
  ghost function Changed(f: Fqid, cfs: CollectionFields, links: Links, from: Position): Snapshot {
    var log := ChangedLog(f);
    var t := map[1 := EventRow(1, 1, log.hist[0][0]), 2 := EventRow(2, 1, log.hist[1][0])];
    Snapshot(log, LockTables(t, cfs, links, ReplayOrNothing(log, 2)), from)
  }

  ghost function ReplayOrNothing(log: Log, k: nat): Models
    requires k <= |log.ps| && k <= |log.hist|
  {
    var models := ReplayHistory(log.ps, log.hist, k);
    if models.Ok? then models.value else map[]
  }

  ghost predicate ReadsAt(log: Log, f: Fqid, p: Position, value: Json)
    requires |log.ps| == |log.hist|
  {
    ModelsUpTo(log, p).Ok? && Visible(ModelsUpTo(log, p).value, f, "x") == Some(value)
  }

  lemma ChangedHolds(f: Fqid)
    ensures var s := Changed(f, map[], {}, 0);
      HoldsHistory(s.tables.events, s.log.ps, s.log.hist) && Ascending(s.log.ps)
  {
    hide Holds;
    var s := Changed(f, map[], {}, 0);
    ListedHolds(s.tables.events, 1, [1], s.log.hist[0]);
    ListedHolds(s.tables.events, 2, [2], s.log.hist[1]);
    assert s.log.ps[0] == 1 && s.log.ps[1] == 2;
  }

  lemma CountsInChanged(f: Fqid)
    ensures CountUpTo(ChangedLog(f).ps, 1) == 1 && CountUpTo(ChangedLog(f).ps, 2) == 2
  {
    assert [1, 2][1..] == [2] && [2][1..] == [];
  }

  lemma ChangedReplay(f: Fqid)
    ensures var log := ChangedLog(f);
      && ReplayHistory(log.ps, log.hist, 1).Ok? && ReplayHistory(log.ps, log.hist, 2).Ok?
      && (forall k | 1 <= k <= 2 :: var models := ReplayHistory(log.ps, log.hist, k).value;
            f in models && !models[f].deleted && "x" in models[f].data && models[f].data["x"] == Int(k - 1))
  {
    var log := ChangedLog(f);
    MetaFieldsAreReserved();
    assert !IsReserved("x") && "x" != META_POSITION && "x" != META_DELETED;
    ReplayOne(map[], log.hist[0][0], 1);
    assert ReplayHistory(log.ps, log.hist, 0) == Ok(map[]);
    assert ReplayHistory(log.ps, log.hist, 1) == ApplyEvent(map[], log.hist[0][0], 1);
    ReplayOne(ReplayHistory(log.ps, log.hist, 1).value, log.hist[1][0], 2);
    assert ReplayHistory(log.ps, log.hist, 2)
      == ApplyEvent(ReplayHistory(log.ps, log.hist, 1).value, log.hist[1][0], 2);
  }
}
