/** When a filtered lock protects what it was taken for: the models that matched when it was taken. */
module FilteredLocks {
  import opened Types
  import opened Replay
  import opened Tables
  import opened DbEvents
  import opened LockIndex
  import opened LockLaws
  import opened Backend
  import opened Filters
  import opened WriteRequests
  import opened LockQueries
  import opened OccLockers
  import opened Trimming
  import opened Writers
  import opened IndexedHistories

  /** The models evaluate filters on their data. */
  function OnModels(tests: ValueTests): ModelSemantics {
    (c: Condition, args: seq<Argument>, model: ModelRow) => OnData(model.data, tests)(c, args)
  }

  lemma MatchesSays(f: Filter, model: ModelRow, tests: ValueTests)
    requires Comparable(f)
    ensures Matches(OnModels(tests), Some(f), model) <==> Says(f, model.data, tests) == True
  {
    SaysIsMeaning(f, model.data, tests, OnModel(OnModels(tests), model));
  }

  /** A filtered lock on one field of a collection. */
  datatype Lock = Lock(cf: CollectionField, position: Position, filter: Filter)

  /** The request holds this filtered lock, and plain ones on other collectionfields. */
  ghost predicate HoldsLock(request: WriteRequest, l: Lock) {
    var locks := request.lockedCollectionFields;
    && Comparable(l.filter) && NonEmptyLists(l.filter)
    && l.cf in locks && locks[l.cf] == Filtered([FilteredLock(l.position, Some(l.filter))])
    && (forall cf | cf in locks && cf != l.cf :: locks[cf].Plain?)
    && FieldLocksFrom(request, 1)
  }

  /** Neither the locked field nor one that the filter names is a reserved one. */
  ghost predicate Unreserved(l: Lock) {
    !IsReserved(l.cf.field) && forall field | Names(l.filter, field) :: !IsReserved(field)
  }

  /** The field is locked as well, on the whole collection, and not at a later position. */
  predicate LockedToo(request: WriteRequest, l: Lock, field: Field) {
    var cf, locks := CollectionField(l.cf.collection, field), request.lockedCollectionFields;
    cf in locks && locks[cf].Plain? && locks[cf].position <= l.position
  }

  /** A model that matches can be changed to one that does not, without touching another locked field. */
  ghost predicate Leaves(request: WriteRequest, l: Lock, tests: ValueTests, before: Model, after: Model) {
    && WellFormedData(before) && WellFormedData(after)
    && (forall field | LockedToo(request, l, field) :: Get(before, field) == Get(after, field))
    && Says(l.filter, before, tests) == True && Says(l.filter, after, tests) != True
  }

  /** A model matched at the locked position, and its locked field was modified later. */
  ghost predicate ModifiedSince(s: Snapshot, l: Lock, tests: ValueTests, f: Fqid) {
    && |s.log.ps| == |s.log.hist| && ModelsUpTo(s.log, l.position).Ok?
    && var before := ModelsUpTo(s.log, l.position).value;
      && f in before && f.collection == l.cf.collection && Says(l.filter, before[f].data, tests) == True
      && TouchedAfter(s.log, f, l.cf.field, l.position)
  }

  /** The lock check passes all the same, although no lock on a field is older than the lock index. */
  ghost predicate Passes(s: Snapshot, request: WriteRequest, l: Lock, tests: ValueTests, f: Fqid) {
    && SnapshotOk(s) && FieldLocksFrom(request, s.from) && ModifiedSince(s, l, tests, f)
    && LockVerdict(s.tables, OnModels(tests), request).Ok?
  }

  // ---------------------------------------------------------------- what a model is without its meta fields

  function Plainly(data: Model): (plain: Model)
    ensures WellFormedData(plain)
    ensures forall field :: field in plain <==> field in data && !IsReserved(field) && data[field] != Null
    ensures forall field | field in plain :: plain[field] == data[field]
  {
    map field | field in data && !IsReserved(field) && data[field] != Null :: data[field]
  }

  lemma PlainlySays(l: Lock, data: Model, tests: ValueTests)
    requires Unreserved(l)
    ensures Says(l.filter, Plainly(data), tests) == Says(l.filter, data, tests)
  {
    SaysReads(l.filter, Plainly(data), data, tests);
  }

  // ---------------------------------------------------------------- a missed change is a way out of the filter

  /** What an accepted request says of the fields of a model that matched. */
  lemma NotBroken(s: Snapshot, request: WriteRequest, l: Lock, tests: ValueTests, key: LockKey)
    requires HoldsLock(request, l) && LockVerdict(s.tables, OnModels(tests), request).Ok?
    ensures FiltersOk(request.lockedCollectionFields) && !KeyBroken(s.tables, OnModels(tests), request, key)
  {
    hide KeyBroken, BrokenKeys, FiltersOk, FiltersComparable;
    KeyNamed(s.tables, OnModels(tests), request, key);
    assert BrokenKeys(s.tables, OnModels(tests), request) == {};
  }

  lemma StillThere(s: Snapshot, f: Fqid, field: Field, p: Position)
    requires SnapshotOk(s) && TouchedAfter(s.log, f, field, p)
    ensures f in s.tables.models
  {
    hide HoldsHistory, IndexOk, ModelsBefore, TouchedFields, Ascending;
    var k: nat, w: nat :| TouchesField(s.log, k, w, f, field) && s.log.ps[k] > p;
    TouchesBound(s.log, k, w, CollectionField(f.collection, field));
    HistoryHasModel(s.log.ps, s.log.hist, |s.log.ps|);
  }

  lemma NoLongerMatches(s: Snapshot, request: WriteRequest, l: Lock, tests: ValueTests, f: Fqid)
    requires HoldsLock(request, l) && Passes(s, request, l, tests, f)
    ensures f in s.tables.models && Says(l.filter, s.tables.models[f].data, tests) != True
  {
    hide HoldsHistory, IndexOk, CacheOk, Ascending, TouchedAfter, Comparable, NonEmptyLists, Matches, Says, ModelsUpTo;
    StillThere(s, f, l.cf.field, l.position);
    NotBroken(s, request, l, tests, CollectionFieldKey(l.cf));
    var t, lock := s.tables, FilteredLock(l.position, Some(l.filter));
    var matches := (m: ModelRow) => FilterOk(lock.filter) && Matches(OnModels(tests), lock.filter, m);
    assert lock in request.lockedCollectionFields[l.cf].locks;
    assert !FilteredBroken(t.events, t.links, t.models, l.cf, l.position, matches);
    FilteredVerdict(s.log, t.events, t.collectionfields, t.links, s.from, t.models, l.cf, l.position, matches);
    MatchesSays(l.filter, t.models[f], tests);
    assert !matches(t.models[f]);
  }
  /** A field that is locked too still holds what it held. */
  lemma LockedHolds(s: Snapshot, request: WriteRequest, l: Lock, tests: ValueTests, f: Fqid, field: Field)
    requires HoldsLock(request, l) && Passes(s, request, l, tests, f)
    requires LockedToo(request, l, field) && !IsReserved(field) && field != l.cf.field
    ensures Held(ModelsUpTo(s.log, l.position).value, f, field) == Held(s.tables.models, f, field)
  {
    hide HoldsHistory, IndexOk, ReplayHistory, TouchedAfter, Comparable, NonEmptyLists, Says, Held, Touches, Ascending;
    var cf, n := CollectionField(l.cf.collection, field), |s.log.ps|;
    var q := request.lockedCollectionFields[cf].position;
    NotBroken(s, request, l, tests, CollectionFieldKey(cf));
    CollectionFieldVerdict(s.log, s.tables.events, s.tables.collectionfields, s.tables.links, s.from, cf, q);
    CountSplits(s.log.ps, l.position);
    var j := CountUpTo(s.log.ps, l.position);
    forall i: nat, w: nat | j <= i < n && w < |s.log.hist[i]|
      ensures Untouched(s.log, i, w, f, field)
    {
      assert Touches(s.log, i, w, cf) ==> CollectionTouchedAfter(s.log, cf, q);
    }
    UntouchedAcross(s.log, j, n, f, field);
  }

  lemma MissedLeaves(s: Snapshot, request: WriteRequest, l: Lock, tests: ValueTests, f: Fqid)
    requires HoldsLock(request, l) && Unreserved(l) && Passes(s, request, l, tests, f)
    ensures f in s.tables.models
    ensures Leaves(request, l, tests,
      Plainly(ModelsUpTo(s.log, l.position).value[f].data), Plainly(s.tables.models[f].data))
  {
    hide SnapshotOk, ModelsUpTo, TouchedAfter, Comparable, NonEmptyLists, Says, LockVerdict, FieldLocksFrom;
    NoLongerMatches(s, request, l, tests, f);
    var before, now := ModelsUpTo(s.log, l.position).value[f].data, s.tables.models[f].data;
    PlainlySays(l, before, tests);
    PlainlySays(l, now, tests);
    forall field | LockedToo(request, l, field)
      ensures Get(Plainly(before), field) == Get(Plainly(now), field)
    {
      if !IsReserved(field) { LockedHolds(s, request, l, tests, f, field); }
    }
  }
  // ---------------------------------------------------------------- a way out of the filter is taken unnoticed

  /** The fields that have to be modified: those that differ, and the locked one. */
  ghost function Differing(l: Lock, before: Model, after: Model): set<Field> {
    (set field | field in before.Keys + after.Keys && Get(before, field) != Get(after, field)) + {l.cf.field}
  }

  ghost function Listed(fields: set<Field>): (list: seq<Field>)
    ensures forall field :: field in list <==> field in fields
  {
    if fields == {} then []
    else
      var field :| field in fields;
      [field] + Listed(fields - {field})
  }

  /** Created at the first position with the one data, changed to the other after the locked position. */
  ghost function LeavingLog(l: Lock, f: Fqid, before: Model, after: Model): Log {
    var fields := Differing(l, before, after);
    var given := map field | field in after && field in fields :: after[field];
    Log([1, l.position + 1], [[Create(f, before)], [Update(f, given), DeleteFields(f, Listed(fields - after.Keys))]])
  }

  /** The row of a model that is not deleted, and what it holds besides its meta fields. */
  ghost predicate HoldsPlainly(row: ModelRow, data: Model) {
    !row.deleted && forall field | !IsReserved(field) :: Get(row.data, field) == Get(data, field)
  }

  lemma CreatedRow(f: Fqid, data: Model, p: Position)
    requires WellFormedData(data)
    ensures Step(None, Create(f, data), p).Ok? && HoldsPlainly(Step(None, Create(f, data), p).value, data)
  {
    MetaFieldsAreReserved();
  }

  lemma UpdatedRow(row: ModelRow, f: Fqid, data: Model, given: Model, p: Position)
    requires HoldsPlainly(row, data) && WellFormedData(given)
    ensures var r := Step(Some(row), Update(f, given), p);
      r.Ok? && HoldsPlainly(r.value, data + given)
  {
    MetaFieldsAreReserved();
  }

  lemma ReducedRow(row: ModelRow, f: Fqid, data: Model, fields: seq<Field>, p: Position)
    requires HoldsPlainly(row, data) && forall field | field in fields :: !IsReserved(field)
    ensures var r := Step(Some(row), DeleteFields(f, fields), p);
      r.Ok? && HoldsPlainly(r.value, data - (set field | field in fields))
  {
    MetaFieldsAreReserved();
  }

  lemma LeavingRows(l: Lock, f: Fqid, before: Model, after: Model)
    requires WellFormedData(before) && WellFormedData(after) && !IsReserved(l.cf.field)
    ensures var log := LeavingLog(l, f, before, after);
      && var a := Step(None, log.hist[0][0], 1);
      && a.Ok? && HoldsPlainly(a.value, before)
      && var b := Step(Some(a.value), log.hist[1][0], log.ps[1]);
      && b.Ok?
      && var c := Step(Some(b.value), log.hist[1][1], log.ps[1]);
      && c.Ok? && HoldsPlainly(c.value, after)
  {
    hide Step, HoldsPlainly, IsReserved;
    var log, fields := LeavingLog(l, f, before, after), Differing(l, before, after);
    var given, gone := log.hist[1][0].data, log.hist[1][1].fields;
    CreatedRow(f, before, 1);
    var a := Step(None, log.hist[0][0], 1).value;
    UpdatedRow(a, f, before, given, log.ps[1]);
    var b := Step(Some(a), log.hist[1][0], log.ps[1]).value;
    ReducedRow(b, f, before + given, gone, log.ps[1]);
    DataLeft(before, after, given, gone, fields);
  }

  lemma DataLeft(before: Model, after: Model, given: Model, gone: seq<Field>, fields: set<Field>)
    requires forall field | field !in fields :: Get(before, field) == Get(after, field)
    requires given == map field | field in after && field in fields :: after[field]
    requires forall field :: field in gone <==> field in fields && field !in after
    ensures before + given - (set field | field in gone) == after
  {
    forall field
      ensures Get(before + given - (set g | g in gone), field) == Get(after, field)
    {
      assert field !in fields ==> Get(before, field) == Get(after, field);
    }
  }

  lemma LeavingReplays(l: Lock, f: Fqid, before: Model, after: Model)
    requires WellFormedData(before) && WellFormedData(after) && !IsReserved(l.cf.field)
    ensures var log := LeavingLog(l, f, before, after);
      && ReplayHistory(log.ps, log.hist, 1).Ok? && ReplayHistory(log.ps, log.hist, 2).Ok?
      && ModelsBefore(log, 1, 0).Ok? && ModelsBefore(log, 1, 1).Ok?
      && var a, b := ReplayHistory(log.ps, log.hist, 1).value, ReplayHistory(log.ps, log.hist, 2).value;
        f in a && f in b && HoldsPlainly(a[f], before) && HoldsPlainly(b[f], after)
  {
    hide Step, Differing, WellFormedData, IsReserved, HoldsPlainly;
    LeavingRows(l, f, before, after);
    var log := LeavingLog(l, f, before, after);
    var update, delete := log.hist[1][0], log.hist[1][1];
    var start: Models := map[];
    ReplayOne(start, log.hist[0][0], 1);
    assert ReplayHistory(log.ps, log.hist, 0) == Ok(start);
    assert ReplayHistory(log.ps, log.hist, 1) == ApplyEvent(start, log.hist[0][0], 1);
    var a := ReplayHistory(log.ps, log.hist, 1).value;
    assert log.hist[1] == [update] + [delete] && log.hist[1][..1] == [update] && log.hist[1][..0] == [];
    ReplayConcat(a, [update], [delete], log.ps[1]);
    ReplayOne(a, update, log.ps[1]);
    ReplayOne(ApplyEvent(a, update, log.ps[1]).value, delete, log.ps[1]);
  }

  /** What the second position modifies, and that the first one modifies nothing but this model. */
  lemma LeavingTouches(l: Lock, f: Fqid, before: Model, after: Model)
    requires WellFormedData(before) && WellFormedData(after) && !IsReserved(l.cf.field)
    requires f.collection == l.cf.collection
    ensures var log := LeavingLog(l, f, before, after);
      && (forall k: nat, w: nat, cf | Touches(log, k, w, cf) ::
            && k <= 1 && w < |log.hist[k]|
            && (k == 1 ==> cf.collection == f.collection && cf.field in Differing(l, before, after)))
      && |log.ps| == |log.hist| == 2 && log.ps[0] == 1 && log.ps[1] == l.position + 1
      && (forall k: nat, w: nat | k <= 1 && w < |log.hist[k]| :: log.hist[k][w].fqid == f)
      && exists w: nat :: TouchesField(log, 1, w, f, l.cf.field)
  {
    hide ReplayHistory, Differing, WellFormedData, IsReserved, ReplayEvents;
    var log := LeavingLog(l, f, before, after);
    LeavingReplays(l, f, before, after);
    assert l.cf.field in Differing(l, before, after) by { HasLocked(l, before, after); }
    if l.cf.field in after {
      assert TouchesField(log, 1, 0, f, l.cf.field);
    } else {
      assert TouchesField(log, 1, 1, f, l.cf.field);
    }
  }

  lemma HasLocked(l: Lock, before: Model, after: Model)
    ensures l.cf.field in Differing(l, before, after)
  {}
  /** A model of the collection that no lock of the request names. */
  lemma Unnamed(request: WriteRequest, collection: Collection) returns (f: Fqid)
    ensures f.collection == collection && f !in request.lockedFqids
    ensures forall field :: (f, field) !in request.lockedFqfields
  {
    var ids := (set g: Fqid | g in request.lockedFqids :: g.id) + set key | key in request.lockedFqfields :: key.0.id;
    f := Fqid(collection, Above(ids));
    assert f in request.lockedFqids ==> f.id in ids;
    forall field
      ensures (f, field) !in request.lockedFqfields
    {
      assert (f, field) in request.lockedFqfields ==> (f, field).0.id in ids;
    }
  }

  lemma OwnLockPasses(s: Snapshot, l: Lock, tests: ValueTests, f: Fqid, before: Model, after: Model)
    requires Comparable(l.filter) && NonEmptyLists(l.filter) && Unreserved(l) && l.position >= 1
    requires WellFormedData(before) && WellFormedData(after) && Says(l.filter, after, tests) != True
    requires f.collection == l.cf.collection
    requires SnapshotOk(s) && s.from == 0 && s.log == LeavingLog(l, f, before, after)
    ensures var lock := FilteredLock(l.position, Some(l.filter));
      !FilteredBroken(s.tables.events, s.tables.links, s.tables.models, l.cf, l.position,
        m => FilterOk(lock.filter) && Matches(OnModels(tests), lock.filter, m))
  {
    hide HoldsHistory, IndexOk, ReplayHistory, Comparable, NonEmptyLists, Says, LeavingLog, WellFormedData, Touches;
    hide Matches, Ascending, FilteredBroken, Names;
    var log, t, lock := s.log, s.tables, FilteredLock(l.position, Some(l.filter));
    var matches := (m: ModelRow) => FilterOk(lock.filter) && Matches(OnModels(tests), lock.filter, m);
    LeavingTouches(l, f, before, after);
    LeavingReplays(l, f, before, after);
    FilteredVerdict(log, t.events, t.collectionfields, t.links, 0, t.models, l.cf, l.position, matches);
    MatchesSays(l.filter, t.models[f], tests);
    forall field | Names(l.filter, field)
      ensures SameValue(t.models[f].data, after, field)
    {
      assert Get(t.models[f].data, field) == Get(after, field);
    }
    SaysReads(l.filter, t.models[f].data, after, tests);
    assert !matches(t.models[f]);
  }

  lemma PlainLockPasses(
    s: Snapshot, request: WriteRequest, l: Lock, tests: ValueTests, f: Fqid, before: Model, after: Model,
    cf: CollectionField)
    requires HoldsLock(request, l) && Unreserved(l) && l.position >= 1
    requires Leaves(request, l, tests, before, after) && f.collection == l.cf.collection
    requires cf in request.lockedCollectionFields && cf != l.cf
    requires SnapshotOk(s) && s.from == 0 && s.log == LeavingLog(l, f, before, after)
    ensures !CollectionFieldBroken(s.tables.collectionfields, cf, request.lockedCollectionFields[cf].position)
  {
    hide HoldsHistory, IndexOk, ReplayHistory, Comparable, NonEmptyLists, Says, LeavingLog, WellFormedData, Touches;
    hide Ascending, CollectionFieldBroken, Names;
    var log, t, p := s.log, s.tables, request.lockedCollectionFields[cf].position;
    LeavingTouches(l, f, before, after);
    CollectionFieldVerdict(log, t.events, t.collectionfields, t.links, 0, cf, p);
    assert cf == CollectionField(cf.collection, cf.field);
    if cf.collection == l.cf.collection && cf.field in Differing(l, before, after) {
      assert l.position < p;
    }
    assert forall k: nat, w: nat | Touches(log, k, w, cf) :: log.ps[k] <= p;
  }

  /** No lock of the request is broken by the change. */
  lemma LeavingIsUnbroken(
    s: Snapshot, request: WriteRequest, l: Lock, tests: ValueTests, f: Fqid, before: Model, after: Model, key: LockKey)
    requires HoldsLock(request, l) && Unreserved(l) && l.position >= 1
    requires Leaves(request, l, tests, before, after) && f.collection == l.cf.collection
    requires f !in request.lockedFqids && forall field :: (f, field) !in request.lockedFqfields
    requires SnapshotOk(s) && s.from == 0 && s.log == LeavingLog(l, f, before, after)
    ensures FiltersOk(request.lockedCollectionFields) && !KeyBroken(s.tables, OnModels(tests), request, key)
  {
    hide HoldsHistory, IndexOk, ReplayHistory, ReplayEvents, Comparable, NonEmptyLists, Says, LeavingLog;
    hide WellFormedData, Touches, Ascending, FqidBroken, FqfieldBroken, Matches;
    var log, t := s.log, s.tables;
    LeavingTouches(l, f, before, after);
    match key
    case FqidKey(g) =>
      FqidVerdict(log, t.events, g, if g in request.lockedFqids then request.lockedFqids[g] else 0);
    case FqfieldKey(g, field) =>
      forall other | (g, other) in request.lockedFqfields
        ensures !FqfieldBroken(t.events, t.links, g, field, request.lockedFqfields[(g, other)])
      {
        FqfieldVerdict(log, t.events, t.collectionfields, t.links, 0, g, field, request.lockedFqfields[(g, other)]);
      }
    case CollectionFieldKey(cf) =>
      if cf == l.cf {
        OwnLockPasses(s, l, tests, f, before, after);
        var lock := FilteredLock(l.position, Some(l.filter));
        assert [lock][0] == lock;
      } else if cf in request.lockedCollectionFields {
        PlainLockPasses(s, request, l, tests, f, before, after, cf);
      }
  }
  /** So there is a datastore in which the change is missed. */
  lemma LeavingIsMissed(request: WriteRequest, l: Lock, tests: ValueTests, before: Model, after: Model)
    returns (s: Snapshot, f: Fqid)
    requires HoldsLock(request, l) && Unreserved(l) && l.position >= 1 && Leaves(request, l, tests, before, after)
    ensures Passes(s, request, l, tests, f)
  {
    hide ReplayHistory, Comparable, NonEmptyLists, Says, WellFormedData, SnapshotOk, LeavingLog, Touches;
    hide KeyBroken, FiltersOk, Names;
    f := Unnamed(request, l.cf.collection);
    var log := LeavingLog(l, f, before, after);
    LeavingTouches(l, f, before, after);
    LeavingReplays(l, f, before, after);
    s := Indexable(log);
    LeavingIsUnbroken(s, request, l, tests, f, before, after, CollectionFieldKey(l.cf));
    forall key
      ensures !KeyBroken(s.tables, OnModels(tests), request, key)
    {
      LeavingIsUnbroken(s, request, l, tests, f, before, after, key);
    }
    Unbroken(s, request, l, tests);
    LeavingIsModified(s, l, tests, f, before, after);
  }

  lemma Unbroken(s: Snapshot, request: WriteRequest, l: Lock, tests: ValueTests)
    requires FiltersOk(request.lockedCollectionFields)
    requires forall key :: !KeyBroken(s.tables, OnModels(tests), request, key)
    ensures LockVerdict(s.tables, OnModels(tests), request).Ok?
  {
    hide KeyBroken, FiltersOk, FiltersComparable;
    OkIsComparable(request.lockedCollectionFields);
  }

  lemma LeavingIsModified(s: Snapshot, l: Lock, tests: ValueTests, f: Fqid, before: Model, after: Model)
    requires WellFormedData(before) && WellFormedData(after) && Unreserved(l) && l.position >= 1
    requires Says(l.filter, before, tests) == True && f.collection == l.cf.collection
    requires SnapshotOk(s) && s.log == LeavingLog(l, f, before, after)
    ensures ModifiedSince(s, l, tests, f)
  {
    hide SnapshotOk, ReplayHistory, Says, LeavingLog, WellFormedData, TouchesField, Names;
    var log := s.log;
    LeavingTouches(l, f, before, after);
    LeavingReplays(l, f, before, after);
    assert CountUpTo(log.ps, l.position) == 1 by {
      assert log.ps[1..][0] == log.ps[1] && |log.ps[1..]| == 1;
    }
    var first := ReplayHistory(log.ps, log.hist, 1).value;
    forall field | Names(l.filter, field)
      ensures SameValue(first[f].data, before, field)
    {
      assert Get(first[f].data, field) == Get(before, field);
    }
    SaysReads(l.filter, first[f].data, before, tests);
  }

  // ---------------------------------------------------------------- exactly when

  /**
   * For a request with one filtered lock and plain ones: whatever the datastore, an accepted request can
   * count on the locked field of the models that matched the filter at the locked position, if and only
   * if no model can leave the filter without a change to a field that is locked too.
   */
  lemma ProtectsUnlessLeft(request: WriteRequest, l: Lock, tests: ValueTests)
    requires HoldsLock(request, l) && Unreserved(l) && l.position >= 1
    ensures (forall s, f :: !Passes(s, request, l, tests, f))
      <==> (forall before, after :: !Leaves(request, l, tests, before, after))
  {
    hide Passes, Leaves, HoldsLock, Unreserved;
    if s, f :| Passes(s, request, l, tests, f) {
      MissedLeaves(s, request, l, tests, f);
    }
    if before, after :| Leaves(request, l, tests, before, after) {
      var s, f := LeavingIsMissed(request, l, tests, before, after);
    }
  }

  /** Where it can, the field of every model that matched reads what it read. */
  lemma ProtectedReadsSame(s: Snapshot, request: WriteRequest, l: Lock, tests: ValueTests, f: Fqid)
    requires HoldsLock(request, l) && Unreserved(l) && l.position >= 1
    requires forall before, after :: !Leaves(request, l, tests, before, after)
    requires SnapshotOk(s) && FieldLocksFrom(request, s.from) && LockVerdict(s.tables, OnModels(tests), request).Ok?
    requires |s.log.ps| == |s.log.hist| && ModelsUpTo(s.log, l.position).Ok?
    requires f in ModelsUpTo(s.log, l.position).value && f.collection == l.cf.collection
    requires Says(l.filter, ModelsUpTo(s.log, l.position).value[f].data, tests) == True
    ensures SameField(s.log, s.tables.models, f, l.cf.field, l.position)
  {
    hide HoldsHistory, IndexOk, ReplayHistory, Says, Leaves, LockVerdict, Visible, Held, Touches, HoldsLock;
    ProtectsUnlessLeft(request, l, tests);
    assert !Passes(s, request, l, tests, f);
    CountSplits(s.log.ps, l.position);
    var j := CountUpTo(s.log.ps, l.position);
    forall i: nat, w: nat | j <= i < |s.log.ps| && w < |s.log.hist[i]|
      ensures Untouched(s.log, i, w, f, l.cf.field)
    {
      assert TouchesField(s.log, i, w, f, l.cf.field) ==> TouchedAfter(s.log, f, l.cf.field, l.position);
    }
    UntouchedAcross(s.log, j, |s.log.ps|, f, l.cf.field);
  }

  /** So it is enough to lock every field that the filter names on the whole collection as well. */
  lemma LockedNamesProtect(request: WriteRequest, l: Lock, tests: ValueTests, before: Model, after: Model)
    requires forall field | Names(l.filter, field) :: LockedToo(request, l, field)
    ensures !Leaves(request, l, tests, before, after)
  {
    hide LockedToo, Says;
    if forall field | LockedToo(request, l, field) :: Get(before, field) == Get(after, field) {
      forall field | Names(l.filter, field)
        ensures SameValue(before, after, field)
      {
        assert Get(before, field) == Get(after, field);
      }
      SaysReads(l.filter, before, after, tests);
    }
  }

  /** And for a single comparison it is necessary, unless no value at all fulfils it. */
  lemma ComparisonIsLeft(request: WriteRequest, l: Lock, tests: ValueTests)
    requires l.filter.Compare? && Comparable(l.filter) && !IsReserved(l.filter.field)
    requires !LockedToo(request, l, l.filter.field)
    ensures (exists before, after :: Leaves(request, l, tests, before, after))
      <==> l.filter.value == Null || exists v :: v != Null && Compares(tests, l.filter.op, v, l.filter.value)
  {
    var field, nothing: Model := l.filter.field, map[];
    if l.filter.value == Null {
      var something := map[field := Int(0)];
      assert if l.filter.op == Eq then Leaves(request, l, tests, nothing, something)
        else Leaves(request, l, tests, something, nothing);
    } else if v :| v != Null && Compares(tests, l.filter.op, v, l.filter.value) {
      assert Leaves(request, l, tests, map[field := v], nothing);
    }
  }
}
