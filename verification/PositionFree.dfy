/** Positions leave no trace but the meta position: requests are refused, or become events, regardless of them. */
module PositionFree {
  import opened Types
  import opened ListFields
  import opened Replay
  import opened DbEvents
  import opened WriteLaws

  /** Two rows that differ at most in the position they were written at. */
  predicate SameRow(x: ModelRow, y: ModelRow) { x.deleted == y.deleted && Timeless(x) == Timeless(y) }

  ghost predicate SameApart(a: Models, b: Models) {
    a.Keys == b.Keys && forall f | f in a :: SameRow(a[f], b[f])
  }

  predicate SameOption(x: Option<ModelRow>, y: Option<ModelRow>) {
    if x.Some? then y.Some? && SameRow(x.value, y.value) else y.None?
  }

  lemma StepSame(x: Option<ModelRow>, y: Option<ModelRow>, e: Event, p: Position, q: Position)
    requires SameOption(x, y)
    ensures match Step(x, e, p)
      case Err(error) => Step(y, e, q) == Err(error)
      case Ok(row) => Step(y, e, q).Ok? && SameRow(row, Step(y, e, q).value)
  {
    hide Applied, TimelessStep;
    if e.WellFormed() && if e.Create? then x.None? else x.Some? && x.value.deleted == e.Restore? {
      StepIsTimeless(x, e, p);
      StepIsTimeless(y, e, q);
    }
  }

  lemma {:induction false} ReplaySame(a: Models, b: Models, es: seq<Event>, p: Position, q: Position)
    requires SameApart(a, b)
    ensures match ReplayEvents(a, es, p)
      case Err(error) => ReplayEvents(b, es, q) == Err(error)
      case Ok(after) => ReplayEvents(b, es, q).Ok? && SameApart(after, ReplayEvents(b, es, q).value)
    decreases |es|
  {
    hide Step, SameRow;
    if es != [] {
      var front, e := es[..|es| - 1], es[|es| - 1];
      ReplaySame(a, b, front, p, q);
      if ReplayEvents(a, front, p).Ok? {
        var x, y := ReplayEvents(a, front, p).value, ReplayEvents(b, front, q).value;
        StepSame(Lookup(x, e.fqid), Lookup(y, e.fqid), e, p, q);
      }
    }
  }

  lemma SameFields(x: ModelRow, y: ModelRow, f: Field)
    requires SameRow(x, y) && f != META_POSITION
    ensures (f in x.data <==> f in y.data) && (f in x.data ==> x.data[f] == y.data[f])
  {
    assert f in x.data <==> f in Timeless(x);
    assert f in y.data <==> f in Timeless(y);
  }

  lemma SameKeys(x: ModelRow, y: ModelRow)
    requires SameRow(x, y) && RowOk(x) && RowOk(y)
    ensures x.data.Keys == y.data.Keys
  {
    assert x.data.Keys == Timeless(x).Keys + {META_POSITION};
    assert y.data.Keys == Timeless(y).Keys + {META_POSITION};
  }

  lemma ListModificationSame(x: ModelRow, y: ModelRow, add: ListUpdates, remove: ListUpdates)
    requires SameRow(x, y) && forall f | f in add.Keys + remove.Keys :: !IsReserved(f)
    ensures ListModification(x.data, add, remove) == ListModification(y.data, add, remove)
    ensures forall f | f in add.Keys + remove.Keys :: IsUpdatableList(x.data, f) <==> IsUpdatableList(y.data, f)
  {
    hide Applied, SameRow;
    MetaFieldsAreReserved();
    forall f | f in add.Keys + remove.Keys
      ensures (f in x.data <==> f in y.data) && (f in x.data ==> x.data[f] == y.data[f])
    {
      SameFields(x, y, f);
    }
    AppliedDependsOnNamedFields(x.data, y.data, add, remove);
  }

  /** A request event is translated alike. */
  lemma EventsForSame(a: Models, b: Models, r: RequestEvent)
    requires ValidRequest(r) && SameApart(a, b) && RowsOk(a) && RowsOk(b)
    ensures EventsFor(a, r) == EventsFor(b, r)
    ensures Legal(r, Lookup(a, r.fqid)) <==> Legal(r, Lookup(b, r.fqid))
  {
    hide ListModification, IsUpdatableList, NonNull, NullFields, Timeless;
    if r.fqid in a {
      var x, y := a[r.fqid], b[r.fqid];
      SameKeys(x, y);
      MetaFieldsAreReserved();
      if r.RequestUpdate? { ListModificationSame(x, y, r.add, r.remove); }
    }
  }

  /** So are all request events: what they become, and which one is refused, does not depend on positions. */
  lemma {:induction false} RequestsSame(a: Models, b: Models, rs: seq<RequestEvent>, p: Position, q: Position)
    requires SameApart(a, b) && RowsOk(a) && RowsOk(b) && forall r | r in rs :: ValidRequest(r)
    ensures RefusedWith(a, rs, p) == RefusedWith(b, rs, q)
    ensures LegalAll(a, rs, p) == LegalAll(b, rs, q) && AllEvents(a, rs, p) == AllEvents(b, rs, q)
    decreases |rs|
  {
    hide SameApart, EventsFor, Legal, ReplayEvents, RowOk, ValidRequest;
    if rs != [] {
      EventsForSame(a, b, rs[0]);
      if EventsFor(a, rs[0]).Ok? {
        var es := StoredEvents(EventsFor(a, rs[0]).value);
        ReplaySame(a, b, es, p, q);
        if ReplayEvents(a, es, p).Ok? {
          ReplayKeepsRowsOk(a, es, p);
          ReplayKeepsRowsOk(b, es, q);
          RequestsSame(ReplayEvents(a, es, p).value, ReplayEvents(b, es, q).value, rs[1..], p, q);
        }
      }
    }
  }

  /** Requests are legal exactly if none is refused. */
  lemma {:induction false} LegalIsUnrefused(models: Models, rs: seq<RequestEvent>, p: Position)
    requires RowsOk(models) && forall r | r in rs :: ValidRequest(r)
    ensures LegalAll(models, rs, p) <==> RefusedWith(models, rs, p).None?
    decreases |rs|
  {
    hide EventsFor, Legal, ReplayEvents, RowOk, ValidRequest, FaithfulAll;
    if rs != [] {
      LegalIsTranslated(models, rs[0], p);
      if EventsFor(models, rs[0]).Ok? {
        var es := StoredEvents(EventsFor(models, rs[0]).value);
        ReplayKeepsRowsOk(models, es, p);
        LegalIsUnrefused(ReplayEvents(models, es, p).value, rs[1..], p);
      }
    }
  }

  lemma LegalIsTranslated(models: Models, r: RequestEvent, p: Position)
    requires RowsOk(models) && ValidRequest(r)
    ensures Legal(r, Lookup(models, r.fqid)) <==> EventsFor(models, r).Ok?
    ensures EventsFor(models, r).Ok? ==> ReplayEvents(models, StoredEvents(EventsFor(models, r).value), p).Ok?
  {
    hide Legal, ReplayEvents, ValidRequest, Translate, FaithfulAll;
    TranslateFaithful(r, FetchedModels(models, {r.fqid}), Lookup(models, r.fqid), p);
    if EventsFor(models, r).Ok? { FaithfulReplay(models, r.fqid, EventsFor(models, r).value, p); }
  }

  /** At any position: legal or not, the same events, the same refusal. */
  lemma AnyPosition(models: Models, rs: seq<RequestEvent>, p: Position, q: Position)
    requires RowsOk(models) && forall r | r in rs :: ValidRequest(r)
    ensures RefusedWith(models, rs, p) == RefusedWith(models, rs, q)
    ensures LegalAll(models, rs, p) == LegalAll(models, rs, q) == RefusedWith(models, rs, p).None?
    ensures AllEvents(models, rs, p) == AllEvents(models, rs, q)
  {
    hide RefusedWith, LegalAll, AllEvents, ValidRequest, RowOk;
    RequestsSame(models, models, rs, p, q);
    LegalIsUnrefused(models, rs, p);
  }
}
