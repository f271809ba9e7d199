/** The writer's events: requests, their translation, and their effect on the fetched models. */
module DbEvents {
  import opened Types
  import opened ListFields

  type Dict = seq<(Field, Json)>    // a JSON object in the order of its keys

  datatype RequestEvent =
    | RequestCreate(fqid: Fqid, fields: Model)
    | RequestUpdate(fqid: Fqid, values: Dict, add: ListUpdates, remove: ListUpdates)
    | RequestDelete(fqid: Fqid)
    | RequestRestore(fqid: Fqid)

  function Keys(d: Dict): set<Field> { set i | 0 <= i < |d| :: d[i].0 }

  /** The constructor of `RequestCreateEvent`: values of `None` are pruned, reserved fields refused. */
  function MakeCreate(fqid: Fqid, fields: Model): (r: Result<RequestEvent>)
    ensures r.Ok? <==> forall f | f in fields && fields[f] != Null :: !IsReserved(f)
    ensures r.Ok? ==> ValidRequest(r.value) && r.value.RequestCreate? && r.value.fqid == fqid
    ensures r.Ok? ==> forall f :: f in r.value.fields <==> f in fields && fields[f] != Null
    ensures r.Ok? ==> forall f | f in r.value.fields :: r.value.fields[f] == fields[f]
    ensures r.Err? ==> r.error == InvalidFormat
  {
    var pruned := map f | f in fields && fields[f] != Null :: fields[f];
    if exists f | f in pruned :: IsReserved(f) then Err(InvalidFormat) else Ok(RequestCreate(fqid, pruned))
  }

  /** The constructor of `RequestUpdateEvent`: no field both with a value and with a list update. */
  function MakeUpdate(fqid: Fqid, values: Dict, add: ListUpdates, remove: ListUpdates): (r: Result<RequestEvent>)
    requires forall i, j | 0 <= i < j < |values| :: values[i].0 != values[j].0
    ensures r.Ok? <==>
      && (values != [] || add != map[] || remove != map[])
      && (forall i | 0 <= i < |values| :: values[i].0 !in add && values[i].0 !in remove && !IsReserved(values[i].0))
      && (forall f | f in add || f in remove :: !IsReserved(f))
    ensures r.Ok? ==> r.value == RequestUpdate(fqid, values, add, remove) && ValidRequest(r.value)
    ensures r.Err? ==> r.error == if (values == [] && add == map[] && remove == map[])
      || exists i | 0 <= i < |values| :: values[i].0 in add || values[i].0 in remove
      then InvalidRequest else InvalidFormat
  {
    var all := Keys(values) + add.Keys + remove.Keys;
    assert forall i | 0 <= i < |values| :: values[i].0 in Keys(values);
    assert values != [] ==> values[0].0 in Keys(values);
    if all == {} then Err(InvalidRequest)
    else if !(Keys(values) !! add.Keys + remove.Keys) then Err(InvalidRequest)
    else if exists f | f in all :: IsReserved(f) then Err(InvalidFormat)
    else Ok(RequestUpdate(fqid, values, add, remove))
  }

  /** What the constructors of the request events have checked. */
  predicate ValidRequest(r: RequestEvent) {
    match r
    case RequestCreate(_, fields) => WellFormedData(fields)
    case RequestUpdate(_, values, add, remove) =>
      && Keys(values) + add.Keys + remove.Keys != {}
      && Keys(values) !! add.Keys + remove.Keys
      && (forall f | f in Keys(values) + add.Keys + remove.Keys :: !IsReserved(f))
      && (forall i, j | 0 <= i < j < |values| :: values[i].0 != values[j].0)
    case _ => true
  }

  datatype DbEvent =
    | DbCreate(fqid: Fqid, data: Model)
    | DbUpdate(fqid: Fqid, data: Model)
    | DbListUpdate(fqid: Fqid, add: ListUpdates, remove: ListUpdates, modified: Model)
    | DbDeleteFields(fqid: Fqid, fields: seq<Field>)
    | DbDelete(fqid: Fqid, keys: set<Field>)
    | DbRestore(fqid: Fqid, keys: set<Field>)
  {
    /** `get_modified_fields`; deletes and restores give `None` for every field of the model. */
    function ModifiedFields(): Model {
      match this
      case DbCreate(_, data) => data[META_DELETED := Bool(false)]
      case DbUpdate(_, data) => data
      case DbListUpdate(_, _, _, modified) => modified
      case DbDeleteFields(_, fields) => map f | f in fields :: Null
      case DbDelete(_, keys) => map f | f in keys :: Null
      case DbRestore(_, keys) => map f | f in keys :: Null
    }

    /** The event that goes into the `events` table. */
    function Stored(): Event {
      match this
      case DbCreate(f, data) => Create(f, data)
      case DbUpdate(f, data) => Update(f, data)
      case DbListUpdate(f, add, remove, _) => ListUpdate(f, add, remove)
      case DbDeleteFields(f, fields) => DeleteFields(f, fields)
      case DbDelete(f, _) => Delete(f)
      case DbRestore(f, _) => Restore(f)
    }
  }

  function StoredEvents(es: seq<DbEvent>): (r: seq<Event>)
    ensures |r| == |es| && forall i | 0 <= i < |es| :: r[i] == es[i].Stored()
  {
    seq(|es|, i requires 0 <= i < |es| => es[i].Stored())
  }

  type Fetched = map<Fqid, Model>

  predicate ListElement(v: Json) { v.Str? || v.Int? || v.Bool? }

  predicate IsUpdatableList(model: Model, field: Field) {
    field in model ==> model[field].List? && forall v | v in model[field].items :: ListElement(v)
  }

  /** `calculate_modified_fields`: the list update against the model as it was fetched. */
  function ListModification(model: Model, add: ListUpdates, remove: ListUpdates): Result<Model> {
    if exists f | f in add.Keys + remove.Keys :: !IsUpdatableList(model, f) then Err(InvalidFormat)
    else Applied(model, add, remove)
  }

  function NonNull(d: Dict): Model {
    if d == [] then map[]
    else
      var rest := NonNull(d[..|d| - 1]);
      if d[|d| - 1].1 == Null then rest else rest[d[|d| - 1].0 := d[|d| - 1].1]
  }

  function NullFields(d: Dict): seq<Field> {
    if d == [] then []
    else NullFields(d[..|d| - 1]) + if d[|d| - 1].1 == Null then [d[|d| - 1].0] else []
  }

  /** `create_update_events`: values, then deleted fields, then the list update, all against one model. */
  function UpdateEvents(r: RequestEvent, model: Model): Result<seq<DbEvent>>
    requires r.RequestUpdate?
  {
    var updated := if NonNull(r.values) == map[] then [] else [DbUpdate(r.fqid, NonNull(r.values))];
    var deleted := if NullFields(r.values) == [] then [] else [DbDeleteFields(r.fqid, NullFields(r.values))];
    if r.add == map[] && r.remove == map[] then Ok(updated + deleted)
    else
      var modified :- ListModification(model, r.add, r.remove);
      Ok(updated + deleted + [DbListUpdate(r.fqid, r.add, r.remove, modified)])
  }

  predicate ExistsUndeleted(models: Fetched, f: Fqid) {
    f in models && !(META_DELETED in models[f] && models[f][META_DELETED] == Bool(true))
  }

  function Translate(r: RequestEvent, models: Fetched): Result<seq<DbEvent>> {
    match r
    case RequestCreate(f, fields) => if f in models then Err(ModelExists(f)) else Ok([DbCreate(f, fields)])
    case RequestUpdate(f, _, _, _) =>
      if !ExistsUndeleted(models, f) then Err(ModelDoesNotExist(f)) else UpdateEvents(r, models[f])
    case RequestDelete(f) =>
      if !ExistsUndeleted(models, f) then Err(ModelDoesNotExist(f)) else Ok([DbDelete(f, models[f].Keys)])
    case RequestRestore(f) =>
      if f !in models || ExistsUndeleted(models, f) then Err(ModelNotDeleted(f)) else Ok([DbRestore(f, models[f].Keys)])
  }

  method CreateUpdateEvents(r: RequestEvent, model: Model) returns (es: Result<seq<DbEvent>>)
    requires r.RequestUpdate?
    ensures es == UpdateEvents(r, model)
  {
    var updated: Model, deleted: seq<Field> := map[], [];
    for i := 0 to |r.values|
      invariant updated == NonNull(r.values[..i]) && deleted == NullFields(r.values[..i])
    {
      assert r.values[..i + 1][..i] == r.values[..i];
      if r.values[i].1 != Null {
        updated := updated[r.values[i].0 := r.values[i].1];
      } else {
        deleted := deleted + [r.values[i].0];
      }
    }
    assert r.values[..|r.values|] == r.values;
    var events: seq<DbEvent> := [];
    if updated != map[] {
      events := events + [DbUpdate(r.fqid, updated)];
    }
    ghost var front := if updated == map[] then [] else [DbUpdate(r.fqid, updated)];
    assert events == front;
    if deleted != [] {
      events := events + [DbDeleteFields(r.fqid, deleted)];
    }
    assert events == front + if deleted == [] then [] else [DbDeleteFields(r.fqid, deleted)];
    if r.add != map[] || r.remove != map[] {
      if exists f | f in r.add.Keys + r.remove.Keys :: !IsUpdatableList(model, f) {
        return Err(InvalidFormat);
      }
      var modified := ApplyFields(model, r.add, r.remove);
      if modified.Err? {
        return Err(modified.error);
      }
      events := events + [DbListUpdate(r.fqid, r.add, r.remove, modified.value)];
    }
    es := Ok(events);
  }

  /**
   * `apply_event_to_models` of the backend, on the model of the event. The translator only yields
   * events for models that were fetched or just created.
   */
  function WrittenModel(before: Model, e: DbEvent, pos: Position): Model {
    var model := match e
      case DbCreate(_, data) => data[META_DELETED := Bool(false)]
      case DbUpdate(_, data) => before + data
      case DbListUpdate(_, _, _, modified) => before + modified
      case DbDeleteFields(_, fields) => before - (set f | f in fields)
      case DbDelete(_, _) => before[META_DELETED := Bool(true)]
      case DbRestore(_, _) => before[META_DELETED := Bool(false)];
    model[META_POSITION := Int(pos)]
  }

  /** The fields of a row that an event modifies: those the lock index has to know of. */
  function TouchedFields(row: Option<ModelRow>, e: Event): set<Field> {
    match e
    case Create(_, data) => data.Keys + {META_DELETED}
    case Update(_, data) => data.Keys
    case DeleteFields(_, fields) => set f | f in fields
    case ListUpdate(_, add, remove) => Touched(if row.None? then map[] else row.value.data, add, remove)
    case Delete(_) => if row.None? then {} else row.value.data.Keys
    case Restore(_) => if row.None? then {} else row.value.data.Keys
  }
}
