/** What request events mean to the caller: when they are refused, and what a model reads afterwards. */
module RequestLaws {
  import opened Types
  import opened ListFields
  import opened Replay
  import opened DbEvents
  import opened WriteLaws

  /** Nothing there, or a list of texts and numbers, as which truth values count. */
  predicate ListOfScalars(model: Model, f: Field) {
    f !in model || (model[f].List? && forall v | v in model[f].items :: v.Str? || v.Int? || v.Bool?)
  }

  /** A model that can be read. */
  predicate Alive(models: Models, f: Fqid) { f in models && !models[f].deleted }

  /** Which request events are refused, and with which error. */
  lemma RefusalMeans(models: Models, r: RequestEvent)
    requires ValidRequest(r) && RowsOk(models)
    ensures match r
      case RequestCreate(f, _) =>
        if f in models then EventsFor(models, r) == Err(ModelExists(f)) else EventsFor(models, r).Ok?
      case RequestUpdate(f, _, add, remove) =>
        if !Alive(models, f) then EventsFor(models, r) == Err(ModelDoesNotExist(f))
        else if forall g | g in add || g in remove :: ListOfScalars(models[f].data, g) then EventsFor(models, r).Ok?
        else EventsFor(models, r) == Err(InvalidFormat)
      case RequestDelete(f) =>
        if !Alive(models, f) then EventsFor(models, r) == Err(ModelDoesNotExist(f)) else EventsFor(models, r).Ok?
      case RequestRestore(f) =>
        if f !in models || !models[f].deleted then EventsFor(models, r) == Err(ModelNotDeleted(f))
        else EventsFor(models, r).Ok?
  {
    if r.RequestUpdate? && Alive(models, r.fqid) {
      var data := models[r.fqid].data;
      if forall g | g in r.add || g in r.remove :: ListOfScalars(data, g) {
        UpdatableLists(data, r.add, r.remove);
      }
    }
  }

  /** The models after the events of a request event. */
  ghost predicate After(models: Models, r: RequestEvent, pos: Position, after: Models) {
    EventsFor(models, r).Ok? && ReplayEvents(models, StoredEvents(EventsFor(models, r).value), pos) == Ok(after)
  }

  /** No other model changes. */
  ghost predicate OthersSame(models: Models, after: Models, f: Fqid) {
    forall g | g != f :: Lookup(after, g) == Lookup(models, g)
  }

  lemma AfterIs(models: Models, r: RequestEvent, pos: Position, e: DbEvent) returns (after: Models)
    requires ValidRequest(r) && RowsOk(models) && EventsFor(models, r) == Ok([e])
    ensures After(models, r, pos, after) && OthersSame(models, after, r.fqid)
    ensures Lookup(after, r.fqid) == Some(NextRow(Lookup(models, r.fqid), e, pos))
  {
    hide Translate, NextRow, FaithfulAll, ReplayEvents;
    TranslateFaithful(r, FetchedModels(models, {r.fqid}), Lookup(models, r.fqid), pos);
    FaithfulReplay(models, r.fqid, [e], pos);
    after := ReplayEvents(models, StoredEvents([e]), pos).value;
    assert [e][1..] == [];
  }

  /** A new model holds what it was given, and nothing else. */
  lemma CreateRequestMeans(models: Models, r: RequestEvent, pos: Position) returns (after: Models)
    requires ValidRequest(r) && r.RequestCreate? && RowsOk(models) && r.fqid !in models
    ensures After(models, r, pos, after) && OthersSame(models, after, r.fqid) && Alive(after, r.fqid)
    ensures forall f | !IsReserved(f) :: Get(after[r.fqid].data, f) == Get(r.fields, f)
  {
    MetaFieldsAreReserved();
    after := AfterIs(models, r, pos, DbCreate(r.fqid, r.fields));
  }

  /** A deleted model keeps its fields. */
  lemma DeleteRequestMeans(models: Models, r: RequestEvent, pos: Position) returns (after: Models)
    requires ValidRequest(r) && r.RequestDelete? && RowsOk(models) && Alive(models, r.fqid)
    ensures After(models, r, pos, after) && OthersSame(models, after, r.fqid)
    ensures r.fqid in after && after[r.fqid].deleted
    ensures forall f | !IsReserved(f) :: Get(after[r.fqid].data, f) == Get(models[r.fqid].data, f)
  {
    MetaFieldsAreReserved();
    after := AfterIs(models, r, pos, DbDelete(r.fqid, models[r.fqid].data.Keys));
  }

  /** A restored one has them again. */
  lemma RestoreRequestMeans(models: Models, r: RequestEvent, pos: Position) returns (after: Models)
    requires ValidRequest(r) && r.RequestRestore? && RowsOk(models) && r.fqid in models && models[r.fqid].deleted
    ensures After(models, r, pos, after) && OthersSame(models, after, r.fqid) && Alive(after, r.fqid)
    ensures forall f | !IsReserved(f) :: Get(after[r.fqid].data, f) == Get(models[r.fqid].data, f)
  {
    MetaFieldsAreReserved();
    after := AfterIs(models, r, pos, DbRestore(r.fqid, models[r.fqid].data.Keys));
  }

  lemma OkIsLegal(models: Models, r: RequestEvent)
    requires ValidRequest(r) && RowsOk(models) && EventsFor(models, r).Ok?
    ensures Legal(r, Lookup(models, r.fqid)) && (r.RequestUpdate? ==> Alive(models, r.fqid))
  {
    hide Translate, FaithfulAll, RowOk;
    TranslateFaithful(r, FetchedModels(models, {r.fqid}), Lookup(models, r.fqid), 0);
  }

  /** A field that is given a value has it, or is gone if that is null. */
  lemma UpdatedValue(models: Models, r: RequestEvent, pos: Position, i: nat) returns (after: Models)
    requires ValidRequest(r) && r.RequestUpdate? && RowsOk(models) && EventsFor(models, r).Ok?
    requires i < |r.values|
    ensures After(models, r, pos, after) && OthersSame(models, after, r.fqid) && Alive(after, r.fqid)
    ensures var (f, v) := r.values[i];
      Get(after[r.fqid].data, f) == if v == Null then None else Some(v)
  {
    hide EventsFor, ReplayEvents, Legal, RowOk;
    OkIsLegal(models, r);
    var f := r.values[i].0;
    assert f in Keys(r.values);
    UpdateRequestMeans(models, r, pos, f);
    ValueAt(r.values, i);
    after := ReplayEvents(models, StoredEvents(EventsFor(models, r).value), pos).value;
  }

  lemma {:induction false} ValueAt(d: Dict, i: nat)
    requires i < |d| && forall i, j | 0 <= i < j < |d| :: d[i].0 != d[j].0
    ensures ValueOf(d, d[i].0) == Some(d[i].1)
    decreases |d|
  {
    if i < |d| - 1 { ValueAt(d[..|d| - 1], i); }
  }

  /** A list that is updated has the new elements behind the old ones, but none of those to be removed. */
  lemma UpdatedList(models: Models, r: RequestEvent, pos: Position, f: Field) returns (after: Models)
    requires ValidRequest(r) && r.RequestUpdate? && RowsOk(models) && EventsFor(models, r).Ok?
    requires f in r.add || (f in r.remove && f in models[r.fqid].data)
    ensures After(models, r, pos, after) && OthersSame(models, after, r.fqid) && Alive(after, r.fqid)
    ensures var data := models[r.fqid].data;
      var before := ItemsOf(data, f);
      var added := if f in r.add then before + Without(r.add[f], before) else before;
      var left := if f in r.remove && f in data then Without(added, r.remove[f]) else added;
      Get(after[r.fqid].data, f) == Some(List(left))
  {
    hide EventsFor, ReplayEvents, RowOk;
    OkIsLegal(models, r);
    var data := models[r.fqid].data;
    assert IsUpdatableList(data, f) && f in Touched(data, r.add, r.remove);
    UpdateRequestMeans(models, r, pos, f);
    ValuesOf(r.values, f);
    ListUpdateMeans(data, r.add, r.remove, f);
    after := ReplayEvents(models, StoredEvents(EventsFor(models, r).value), pos).value;
  }

  /** All other fields read as before; removing from a field that is not there does not create it. */
  lemma UnnamedStays(models: Models, r: RequestEvent, pos: Position, f: Field) returns (after: Models)
    requires ValidRequest(r) && r.RequestUpdate? && RowsOk(models) && EventsFor(models, r).Ok?
    requires !IsReserved(f) && f !in r.add && (f in r.remove ==> f !in models[r.fqid].data)
    requires forall i | 0 <= i < |r.values| :: r.values[i].0 != f
    ensures After(models, r, pos, after) && OthersSame(models, after, r.fqid) && Alive(after, r.fqid)
    ensures Get(after[r.fqid].data, f) == Get(models[r.fqid].data, f)
  {
    hide EventsFor, ReplayEvents, Legal, RowOk;
    OkIsLegal(models, r);
    UpdateRequestMeans(models, r, pos, f);
    ValuesOf(r.values, f);
    after := ReplayEvents(models, StoredEvents(EventsFor(models, r).value), pos).value;
  }

  /** The events of an update, in their order: values, then deleted fields, then lists, each as it was given. */
  lemma UpdateEventsMean(r: RequestEvent, model: Model)
    requires ValidRequest(r) && r.RequestUpdate? && UpdateEvents(r, model).Ok?
    ensures var es := UpdateEvents(r, model).value;
      && (forall i, j | 0 <= i < j < |es| :: !es[j].DbUpdate? && !es[i].DbListUpdate?)
      && (forall e | e in es :: e.fqid == r.fqid && (e.DbUpdate? || e.DbDeleteFields? || e.DbListUpdate?))
      && (forall e, f | e in es && e.DbUpdate? ::
            Get(e.data, f) == if ValueOf(r.values, f) == Some(Null) then None else ValueOf(r.values, f))
      && (forall e, f | e in es && e.DbDeleteFields? :: f in e.fields <==> ValueOf(r.values, f) == Some(Null))
      && (forall e | e in es && e.DbListUpdate? :: e.add == r.add && e.remove == r.remove)
  {
    hide ListModification, NonNull, NullFields;
    forall f
      ensures Get(NonNull(r.values), f) == if ValueOf(r.values, f) == Some(Null) then None else ValueOf(r.values, f)
      ensures f in NullFields(r.values) <==> ValueOf(r.values, f) == Some(Null)
    {
      ValuesOf(r.values, f);
    }
  }
}
