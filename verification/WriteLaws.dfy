/** Why precomputed writes may be trusted: what the writer does to its models is what a replay does. */
module WriteLaws {
  import opened Types
  import opened ListFields
  import opened Replay
  import opened DbEvents

  function DataOf(row: Option<ModelRow>): Model { if row.None? then map[] else row.value.data }

  /** The writer's shortcut for an event does to a row what its replay does, and names what it modifies. */
  ghost predicate Faithful(row: Option<ModelRow>, e: DbEvent, pos: Position) {
    && Step(row, e.Stored(), pos) == Ok(NextRow(row, e, pos))
    && e.ModifiedFields().Keys == TouchedFields(row, e.Stored())
  }

  function NextRow(row: Option<ModelRow>, e: DbEvent, pos: Position): ModelRow {
    ModelRow(WrittenModel(DataOf(row), e, pos), e.DbDelete?)
  }

  ghost predicate FaithfulAll(row: Option<ModelRow>, es: seq<DbEvent>, pos: Position)
    decreases |es|
  {
    es != [] ==> Faithful(row, es[0], pos) && FaithfulAll(Some(NextRow(row, es[0], pos)), es[1..], pos)
  }

  /** When a request event is legal, in terms of the row it is about. */
  predicate Legal(r: RequestEvent, row: Option<ModelRow>) {
    match r
    case RequestCreate(_, _) => row.None?
    case RequestUpdate(_, _, add, remove) =>
      row.Some? && !row.value.deleted && forall f | f in add.Keys + remove.Keys :: IsUpdatableList(row.value.data, f)
    case RequestDelete(_) => row.Some? && !row.value.deleted
    case RequestRestore(_) => row.Some? && row.value.deleted
  }

  lemma {:induction false} ValuesSplit(d: Dict)
    ensures NonNull(d).Keys <= Keys(d) && forall f | f in NonNull(d) :: NonNull(d)[f] != Null
    ensures forall f | f in NullFields(d) :: f in Keys(d)
    ensures NonNull(d) == map[] && NullFields(d) == [] ==> d == []
    decreases |d|
  {
    if d != [] {
      var front, last := d[..|d| - 1], d[|d| - 1];
      ValuesSplit(front);
      forall f | f in Keys(front)
        ensures f in Keys(d)
      {
        var i :| 0 <= i < |front| && front[i].0 == f;
        assert d[i].0 == f;
      }
      assert last.0 in Keys(d);
      assert if last.1 == Null then last.0 in NullFields(d) else last.0 in NonNull(d);
    }
  }

  lemma UpdatableLists(model: Model, add: ListUpdates, remove: ListUpdates)
    requires forall f | f in add.Keys + remove.Keys :: IsUpdatableList(model, f)
    ensures ListModification(model, add, remove) == Applied(model, add, remove)
    ensures Applied(model, add, remove).Ok? && Applied(model, add, remove).value.Keys == Touched(model, add, remove)
  {
    forall f | f in Touched(model, add, remove)
      ensures ListValue(model, add, remove, f).Some?
    {
      assert f in add.Keys + remove.Keys;
    }
  }

  lemma ValueFaithful(row: ModelRow, e: DbEvent, pos: Position)
    requires RowOk(row) && !row.deleted && e.Stored().WellFormed()
    requires e.DbUpdate? || e.DbDeleteFields?
    ensures Faithful(Some(row), e, pos)
    ensures RowOk(NextRow(Some(row), e, pos)) && !NextRow(Some(row), e, pos).deleted
  {
    MetaFieldsAreReserved();
    match e
    case DbUpdate(_, data) =>
      assert (row.data + data)[META_POSITION := Int(pos)] == row.data[META_POSITION := Int(pos)] + data;
    case DbDeleteFields(_, fields) =>
      assert (row.data - (set f | f in fields))[META_POSITION := Int(pos)]
        == row.data[META_POSITION := Int(pos)] - (set f | f in fields);
  }

  /** A list update may be computed on an older model, as long as that agrees on the lists. */
  lemma ListFaithful(row: ModelRow, stale: Model, f: Fqid, add: ListUpdates, remove: ListUpdates, pos: Position)
    requires RowOk(row) && !row.deleted && ListUpdate(f, add, remove).WellFormed()
    requires forall g | g in add.Keys + remove.Keys ::
      (g in stale <==> g in row.data) && (g in stale ==> stale[g] == row.data[g])
    requires Applied(stale, add, remove).Ok?
    ensures Faithful(Some(row), DbListUpdate(f, add, remove, Applied(stale, add, remove).value), pos)
  {
    MetaFieldsAreReserved();
    var data := row.data[META_POSITION := Int(pos)];
    AppliedDependsOnNamedFields(stale, data, add, remove);
    AppliedDependsOnNamedFields(stale, row.data, add, remove);
    var modified := Applied(stale, add, remove).value;
    assert modified.Keys == Touched(row.data, add, remove);
    assert (row.data + modified)[META_POSITION := Int(pos)] == data + modified;
  }

  lemma OtherFaithful(row: Option<ModelRow>, e: DbEvent, pos: Position)
    requires e.DbCreate? || e.DbDelete? || e.DbRestore?
    requires if e.DbCreate? then row.None? && e.Stored().WellFormed()
      else row.Some? && row.value.deleted == e.DbRestore?
    requires e.DbDelete? ==> e.keys == row.value.data.Keys
    requires e.DbRestore? ==> e.keys == row.value.data.Keys
    ensures Faithful(row, e, pos)
  {
    MetaFieldsAreReserved();
    if e.DbCreate? {
      assert WrittenModel(map[], e, pos) == e.data[META_POSITION := Int(pos)][META_DELETED := Bool(false)];
    } else {
      assert WrittenModel(row.value.data, e, pos)
        == row.value.data[META_POSITION := Int(pos)][META_DELETED := Bool(e.DbDelete?)];
    }
  }

  /** The fields the values of a request do not name keep their values. */
  lemma ValuesLeaveLists(row: ModelRow, e: DbEvent, pos: Position, f: Field)
    requires f != META_POSITION
    requires (e.DbUpdate? && f !in e.data) || (e.DbDeleteFields? && f !in e.fields)
    ensures var next := NextRow(Some(row), e, pos).data;
      (f in next <==> f in row.data) && (f in next ==> next[f] == row.data[f])
  {}

  lemma OptionalFaithful(row: ModelRow, present: bool, e: DbEvent, rest: seq<DbEvent>, pos: Position)
    requires present ==> Faithful(Some(row), e, pos)
    requires FaithfulAll(Some(if present then NextRow(Some(row), e, pos) else row), rest, pos)
    ensures FaithfulAll(Some(row), (if present then [e] else []) + rest, pos)
  {
    hide Faithful, NextRow;
    var all := (if present then [e] else []) + rest;
    assert present ==> all[0] == e && all[1..] == rest;
    assert !present ==> all == rest;
  }

  /** The list update is precomputed on the model before the values of the same request are written. */
  lemma UpdateFaithful(r: RequestEvent, row: ModelRow, pos: Position)
    requires ValidRequest(r) && r.RequestUpdate? && RowOk(row) && Legal(r, Some(row))
    ensures UpdateEvents(r, row.data).Ok? && FaithfulAll(Some(row), UpdateEvents(r, row.data).value, pos)
  {
    hide Faithful, Step, Applied, WrittenModel, IsUpdatableList, RowOk, NonNull, NullFields, Touched, NextRow;
    ValuesSplit(r.values);
    var hasValues, hasNulls := NonNull(r.values) != map[], NullFields(r.values) != [];
    var updated, deleted := DbUpdate(r.fqid, NonNull(r.values)), DbDeleteFields(r.fqid, NullFields(r.values));
    var row1 := if hasValues then NextRow(Some(row), updated, pos) else row;
    if hasValues { ValueFaithful(row, updated, pos); }
    var row2 := if hasNulls then NextRow(Some(row1), deleted, pos) else row1;
    if hasNulls { ValueFaithful(row1, deleted, pos); }
    forall g | g in r.add.Keys + r.remove.Keys
      ensures (g in row.data <==> g in row2.data) && (g in row.data ==> row.data[g] == row2.data[g])
    {
      MetaFieldsAreReserved();
      ValuesLeaveLists(row, updated, pos, g);
      ValuesLeaveLists(row1, deleted, pos, g);
    }
    UpdatableLists(row.data, r.add, r.remove);
    var listed := DbListUpdate(r.fqid, r.add, r.remove, Applied(row.data, r.add, r.remove).value);
    ListFaithful(row2, row.data, r.fqid, r.add, r.remove, pos);
    var hasLists := r.add != map[] || r.remove != map[];
    OptionalFaithful(row2, hasLists, listed, [], pos);
    var tail := (if hasLists then [listed] else []) + [];
    OptionalFaithful(row1, hasNulls, deleted, tail, pos);
    OptionalFaithful(row, hasValues, updated, (if hasNulls then [deleted] else []) + tail, pos);
    assert UpdateEvents(r, row.data).value
      == (if hasValues then [updated] else []) + ((if hasNulls then [deleted] else []) + tail);
  }

  /** Translation succeeds exactly on legal requests, and yields faithful events. */
  lemma TranslateFaithful(r: RequestEvent, models: Fetched, row: Option<ModelRow>, pos: Position)
    requires ValidRequest(r) && (row.Some? ==> RowOk(row.value))
    requires r.fqid in models <==> row.Some?
    requires row.Some? ==> models[r.fqid] == row.value.data
    ensures Translate(r, models).Ok? <==> Legal(r, row)
    ensures Translate(r, models).Ok? ==> FaithfulAll(row, Translate(r, models).value, pos)
    ensures Translate(r, models).Ok? ==> forall e | e in Translate(r, models).value :: e.fqid == r.fqid
    ensures Translate(r, models).Ok? ==>
      var es := Translate(r, models).value;
      && (r.RequestCreate? ==> es == [DbCreate(r.fqid, r.fields)])
      && (r.RequestDelete? ==> es == [DbDelete(r.fqid, row.value.data.Keys)])
      && (r.RequestRestore? ==> es == [DbRestore(r.fqid, row.value.data.Keys)])
      && es != []
  {
    hide Faithful;
    match r
    case RequestUpdate(_, _, _, _) =>
      if Legal(r, row) {
        UpdateFaithful(r, row.value, pos);
        ValuesSplit(r.values);
      }
    case RequestCreate(f, fields) =>
      if Legal(r, row) { OtherFaithful(row, DbCreate(f, fields), pos); }
    case RequestDelete(f) =>
      if Legal(r, row) { OtherFaithful(row, DbDelete(f, row.value.data.Keys), pos); }
    case RequestRestore(f) =>
      if Legal(r, row) { OtherFaithful(row, DbRestore(f, row.value.data.Keys), pos); }
  }

  // ---------------------------------------------------------------- fetched models and the table

  /** The fetched models are the data of the rows in scope. */
  ghost predicate Mirrors(fetched: Fetched, models: Models, scope: set<Fqid>) {
    && fetched.Keys == models.Keys * scope
    && forall f | f in fetched :: fetched[f] == models[f].data
  }

  lemma WriteMirrors(fetched: Fetched, models: Models, scope: set<Fqid>, e: DbEvent, pos: Position)
    requires Mirrors(fetched, models, scope) && RowsOk(models) && e.fqid in scope
    requires Faithful(Lookup(models, e.fqid), e, pos)
    ensures var before := if e.fqid in fetched then fetched[e.fqid] else map[];
      var next := ApplyEvent(models, e.Stored(), pos);
      && next == Ok(models[e.fqid := NextRow(Lookup(models, e.fqid), e, pos)])
      && Mirrors(fetched[e.fqid := WrittenModel(before, e, pos)], next.value, scope)
      && RowsOk(next.value)
  {
    StoredFqid(e);
    StepKeepsRowOk(Lookup(models, e.fqid), e.Stored(), pos);
  }

  lemma StoredFqid(e: DbEvent)
    ensures e.Stored().fqid == e.fqid
  {}

  /** Writing back the fetched models with their deletion flags gives the replayed table. */
  lemma WrittenBack(fetched: Fetched, models: Models, scope: set<Fqid>, table: Models)
    requires Mirrors(fetched, models, scope) && RowsOk(models)
    requires forall f | f !in scope :: Lookup(models, f) == Lookup(table, f)
    requires table.Keys <= models.Keys
    ensures table + (map f | f in fetched :: ModelRow(fetched[f], fetched[f][META_DELETED] == Bool(true))) == models
  {
    var back := table + (map f | f in fetched :: ModelRow(fetched[f], fetched[f][META_DELETED] == Bool(true)));
    forall f | f in models
      ensures f in back && back[f] == models[f]
    {
      assert Lookup(models, f) == Some(models[f]);
    }
    assert back.Keys == models.Keys;
  }

  function FetchedModels(models: Models, scope: set<Fqid>): Fetched {
    map f | f in models && f in scope :: models[f].data
  }

  /** The events a request event turns into, given the models it finds. */
  function EventsFor(models: Models, r: RequestEvent): Result<seq<DbEvent>> {
    Translate(r, FetchedModels(models, {r.fqid}))
  }

  /** Every request event is legal on the replay of those before it. */
  predicate LegalAll(models: Models, rs: seq<RequestEvent>, pos: Position)
    decreases |rs|
  {
    rs == [] ||
    (Legal(rs[0], Lookup(models, rs[0].fqid)) &&
     var es := EventsFor(models, rs[0]);
     es.Ok? &&
     var after := ReplayEvents(models, StoredEvents(es.value), pos);
     after.Ok? && LegalAll(after.value, rs[1..], pos))
  }

  /** The events of all request events, each translated on the replay of those before it. */
  function AllEvents(models: Models, rs: seq<RequestEvent>, pos: Position): seq<Event>
    decreases |rs|
  {
    if rs == [] then []
    else
      var es := EventsFor(models, rs[0]);
      if es.Err? then []
      else
        var after := ReplayEvents(models, StoredEvents(es.value), pos);
        if after.Err? then [] else StoredEvents(es.value) + AllEvents(after.value, rs[1..], pos)
  }

  /** The error of the first request event that is refused. */
  function RefusedWith(models: Models, rs: seq<RequestEvent>, pos: Position): Option<Error>
    decreases |rs|
  {
    if rs == [] then None
    else
      var es := EventsFor(models, rs[0]);
      if es.Err? then Some(es.error)
      else
        var after := ReplayEvents(models, StoredEvents(es.value), pos);
        if after.Err? then None else RefusedWith(after.value, rs[1..], pos)
  }

  lemma FirstRequest(models: Models, rs: seq<RequestEvent>, pos: Position)
    requires rs != []
    ensures !Legal(rs[0], Lookup(models, rs[0].fqid)) ==> !LegalAll(models, rs, pos)
    ensures EventsFor(models, rs[0]).Err? ==> RefusedWith(models, rs, pos) == Some(EventsFor(models, rs[0]).error)
    ensures Legal(rs[0], Lookup(models, rs[0].fqid)) && EventsFor(models, rs[0]).Ok? ==>
      var after := ReplayEvents(models, StoredEvents(EventsFor(models, rs[0]).value), pos);
      after.Ok? ==>
        && LegalAll(models, rs, pos) == LegalAll(after.value, rs[1..], pos)
        && RefusedWith(models, rs, pos) == RefusedWith(after.value, rs[1..], pos)
        && AllEvents(models, rs, pos)
          == StoredEvents(EventsFor(models, rs[0]).value) + AllEvents(after.value, rs[1..], pos)
  {
    hide Legal, EventsFor, ReplayEvents;
  }

  lemma NoRequests(models: Models, rs: seq<RequestEvent>, pos: Position)
    requires rs == []
    ensures LegalAll(models, rs, pos) && AllEvents(models, rs, pos) == []
  {}

  lemma StoredConcat(a: seq<DbEvent>, b: seq<DbEvent>)
    ensures StoredEvents(a + b) == StoredEvents(a) + StoredEvents(b)
  {}

  /** The translator looks at the model of its fqid only. */
  lemma TranslateReads(r: RequestEvent, models: Models, fetched: Fetched, scope: set<Fqid>)
    requires Mirrors(fetched, models, scope) && r.fqid in scope
    ensures Translate(r, fetched) == EventsFor(models, r)
    ensures r.fqid in fetched <==> Lookup(models, r.fqid).Some?
    ensures r.fqid in fetched ==> fetched[r.fqid] == models[r.fqid].data
  {}

  // ---------------------------------------------------------------- what a request means

  /** The value a dictionary gives to a key. */
  function ValueOf(d: Dict, f: Field): Option<Json> {
    if d == [] then None
    else if d[|d| - 1].0 == f then Some(d[|d| - 1].1)
    else ValueOf(d[..|d| - 1], f)
  }

  lemma {:induction false} ValuesOf(d: Dict, f: Field)
    requires forall i, j | 0 <= i < j < |d| :: d[i].0 != d[j].0
    ensures f in Keys(d) <==> ValueOf(d, f).Some?
    ensures f in NonNull(d) <==> ValueOf(d, f).Some? && ValueOf(d, f).value != Null
    ensures f in NonNull(d) ==> NonNull(d)[f] == ValueOf(d, f).value
    ensures f in NullFields(d) <==> ValueOf(d, f) == Some(Null)
    decreases |d|
  {
    if d != [] {
      var n := |d| - 1;
      var front, last := d[..n], d[n];
      ValuesOf(front, f);
      assert last.0 !in Keys(front);
      assert Keys(d) == Keys(front) + {last.0} by {
        forall g | g in Keys(d)
          ensures g in Keys(front) + {last.0}
        {
          var i :| 0 <= i < |d| && d[i].0 == g;
          assert i < n ==> front[i].0 == g;
        }
        forall g | g in Keys(front)
          ensures g in Keys(d)
        {
          var i :| 0 <= i < n && front[i].0 == g;
          assert d[i].0 == g;
        }
        assert d[n].0 == last.0;
      }
      if last.0 == f { ValuesOf(front, last.0); }
    }
  }

  /** What a field reads after an update request: a value, nothing, a changed list, or what it read before. */
  function FieldAfter(r: RequestEvent, before: Model, f: Field): Option<Json>
    requires r.RequestUpdate?
  {
    if ValueOf(r.values, f).Some? then
      if ValueOf(r.values, f).value == Null then None else ValueOf(r.values, f)
    else if f in Touched(before, r.add, r.remove) then
      var value := ListValue(before, r.add, r.remove, f);
      if value.Some? then Some(List(value.value)) else None
    else if f in before then Some(before[f])
    else None
  }

  function RowAfter(row: Option<ModelRow>, es: seq<DbEvent>, pos: Position): Option<ModelRow>
    decreases |es|
  {
    if es == [] then row else RowAfter(Some(NextRow(row, es[0], pos)), es[1..], pos)
  }

  function ValueAfter(e: DbEvent, before: Option<Json>, f: Field): Option<Json> {
    match e
    case DbUpdate(_, data) => if f in data then Some(data[f]) else before
    case DbListUpdate(_, _, _, data) => if f in data then Some(data[f]) else before
    case DbDeleteFields(_, fields) => if f in fields then None else before
    case _ => before
  }

  lemma OptionalAfter(row: ModelRow, present: bool, e: DbEvent, rest: seq<DbEvent>, pos: Position, f: Field)
    requires !IsReserved(f) && !e.DbCreate?
    ensures var next := if present then NextRow(Some(row), e, pos) else row;
      && RowAfter(Some(row), (if present then [e] else []) + rest, pos) == RowAfter(Some(next), rest, pos)
      && Get(next.data, f) == (if present then ValueAfter(e, Get(row.data, f), f) else Get(row.data, f))
      && next.deleted == if present then e.DbDelete? else row.deleted
  {
    MetaFieldsAreReserved();
    var all := (if present then [e] else []) + rest;
    assert present ==> all[0] == e && all[1..] == rest;
    assert !present ==> all == rest;
  }

  /** An update request changes just the fields it names, all from the model it found. */
  lemma UpdateMeans(r: RequestEvent, row: ModelRow, pos: Position, f: Field)
    requires ValidRequest(r) && r.RequestUpdate? && RowOk(row) && Legal(r, Some(row)) && !IsReserved(f)
    ensures UpdateEvents(r, row.data).Ok?
    ensures var after := RowAfter(Some(row), UpdateEvents(r, row.data).value, pos);
      after.Some? && !after.value.deleted && Get(after.value.data, f) == FieldAfter(r, row.data, f)
  {
    hide NextRow, NonNull, NullFields, IsUpdatableList, RowOk, ListValue, Touched;
    ValuesOf(r.values, f);
    UpdatableLists(row.data, r.add, r.remove);
    var hasValues, hasNulls := NonNull(r.values) != map[], NullFields(r.values) != [];
    var updated, deleted := DbUpdate(r.fqid, NonNull(r.values)), DbDeleteFields(r.fqid, NullFields(r.values));
    var modified := Applied(row.data, r.add, r.remove).value;
    var listed, hasLists := DbListUpdate(r.fqid, r.add, r.remove, modified), r.add != map[] || r.remove != map[];
    var row1 := if hasValues then NextRow(Some(row), updated, pos) else row;
    var row2 := if hasNulls then NextRow(Some(row1), deleted, pos) else row1;
    var tail := (if hasLists then [listed] else []) + [];
    OptionalAfter(row2, hasLists, listed, [], pos, f);
    OptionalAfter(row1, hasNulls, deleted, tail, pos, f);
    OptionalAfter(row, hasValues, updated, (if hasNulls then [deleted] else []) + tail, pos, f);
    assert UpdateEvents(r, row.data).value
      == (if hasValues then [updated] else []) + ((if hasNulls then [deleted] else []) + tail);
    TouchedNames(row.data, r.add, r.remove, f);
  }

  lemma TouchedNames(model: Model, add: ListUpdates, remove: ListUpdates, f: Field)
    requires Applied(model, add, remove).Ok?
    ensures f in Applied(model, add, remove).value <==> f in Touched(model, add, remove)
    ensures f in Touched(model, add, remove) ==>
      && f in add.Keys + remove.Keys
      && ListValue(model, add, remove, f).Some?
      && Applied(model, add, remove).value[f] == List(ListValue(model, add, remove, f).value)
  {}

  /** Replaying faithful events of one fqid changes its row alone, as the writer predicts. */
  lemma {:induction false} FaithfulReplay(models: Models, f: Fqid, es: seq<DbEvent>, pos: Position)
    requires FaithfulAll(Lookup(models, f), es, pos) && forall e | e in es :: e.fqid == f
    ensures ReplayEvents(models, StoredEvents(es), pos).Ok?
    ensures var after := ReplayEvents(models, StoredEvents(es), pos).value;
      && Lookup(after, f) == RowAfter(Lookup(models, f), es, pos)
      && forall g | g != f :: Lookup(after, g) == Lookup(models, g)
    decreases |es|
  {
    hide NextRow, TouchedFields, Step;
    if es != [] {
      var next := models[f := NextRow(Lookup(models, f), es[0], pos)];
      StoredFqid(es[0]);
      FaithfulReplay(next, f, es[1..], pos);
      assert StoredEvents(es) == [es[0].Stored()] + StoredEvents(es[1..]);
      ReplayConcat(models, [es[0].Stored()], StoredEvents(es[1..]), pos);
      ReplayOne(models, es[0].Stored(), pos);
    }
  }

  /** What a legal update request does to the models: the fields of one model, and nothing else. */
  lemma UpdateRequestMeans(models: Models, r: RequestEvent, pos: Position, f: Field)
    requires ValidRequest(r) && r.RequestUpdate? && RowsOk(models) && Legal(r, Lookup(models, r.fqid))
    requires !IsReserved(f)
    ensures EventsFor(models, r).Ok? && ReplayEvents(models, StoredEvents(EventsFor(models, r).value), pos).Ok?
    ensures var after := ReplayEvents(models, StoredEvents(EventsFor(models, r).value), pos).value;
      && r.fqid in after && !after[r.fqid].deleted
      && Get(after[r.fqid].data, f) == FieldAfter(r, models[r.fqid].data, f)
      && forall g | g != r.fqid :: Lookup(after, g) == Lookup(models, g)
  {
    hide Faithful, RowAfter, UpdateEvents, ReplayEvents, IsUpdatableList;
    var row := models[r.fqid];
    var fetched := FetchedModels(models, {r.fqid});
    TranslateFaithful(r, fetched, Some(row), pos);
    assert EventsFor(models, r) == UpdateEvents(r, row.data);
    UpdateMeans(r, row, pos, f);
    FaithfulReplay(models, r.fqid, EventsFor(models, r).value, pos);
  }
}
