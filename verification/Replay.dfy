/** Folding events into models: the state machine of `apply_event` and its laws. */
module Replay {
  import opened Types
  import opened ListFields

  /** One event on the row of its own fqid, with the checks of the keyframes. */
  function Step(row: Option<ModelRow>, e: Event, pos: Position): Result<ModelRow> {
    if !e.WellFormed() then Err(BadEvent)
    else if e.Create? then
      if row.Some? then Err(BadEvent)
      else Ok(ModelRow(e.data[META_POSITION := Int(pos)][META_DELETED := Bool(false)], false))
    else if row.None? || row.value.deleted != e.Restore? then Err(BadEvent)
    else
      var data := row.value.data[META_POSITION := Int(pos)];
      match e
      case Update(_, fields) => Ok(ModelRow(data + fields, false))
      case DeleteFields(_, fields) => Ok(ModelRow(data - (set f | f in fields), false))
      case ListUpdate(_, add, remove) =>
        var modified :- Applied(data, add, remove);
        Ok(ModelRow(data + modified, false))
      case Delete(_) => Ok(ModelRow(data[META_DELETED := Bool(true)], true))
      case Restore(_) => Ok(ModelRow(data[META_DELETED := Bool(false)], false))
  }

  function Lookup(models: Models, fqid: Fqid): Option<ModelRow> {
    if fqid in models then Some(models[fqid]) else None
  }

  function ApplyEvent(models: Models, e: Event, pos: Position): Result<Models> {
    var row :- Step(Lookup(models, e.fqid), e, pos);
    Ok(models[e.fqid := row])
  }

  function ReplayEvents(models: Models, es: seq<Event>, pos: Position): Result<Models> {
    if es == [] then Ok(models)
    else
      var before :- ReplayEvents(models, es[..|es| - 1], pos);
      ApplyEvent(before, es[|es| - 1], pos)
  }

  /** The models after the first `k` positions of a history. */
  function ReplayHistory(ps: seq<Position>, hist: seq<seq<Event>>, k: nat): Result<Models>
    requires k <= |ps| && k <= |hist|
  {
    if k == 0 then Ok(map[])
    else
      var before :- ReplayHistory(ps, hist, k - 1);
      ReplayEvents(before, hist[k - 1], ps[k - 1])
  }

  function Then(r: Result<Models>, es: seq<Event>, pos: Position): Result<Models> {
    var models :- r;
    ReplayEvents(models, es, pos)
  }

  lemma {:induction false} ReplayConcat(models: Models, a: seq<Event>, b: seq<Event>, pos: Position)
    ensures ReplayEvents(models, a + b, pos) == Then(ReplayEvents(models, a, pos), b, pos)
    decreases |b|
  {
    hide ApplyEvent;
    if b == [] {
      assert a + b == a;
    } else {
      var n := |b| - 1;
      assert (a + b)[..|a + b| - 1] == a + b[..n];
      ReplayConcat(models, a, b[..n], pos);
    }
  }

  lemma ReplayOne(models: Models, e: Event, pos: Position)
    ensures ReplayEvents(models, [e], pos) == ApplyEvent(models, e, pos)
  {
    assert [e][..0] == [];
    assert ReplayEvents(models, [], pos) == Ok(models);
  }

  lemma {:induction false} HistoryPrefix(
    ps: seq<Position>, hist: seq<seq<Event>>, j: nat, k: nat)
    requires j <= k <= |ps| && k <= |hist|
    requires ReplayHistory(ps, hist, k).Ok?
    ensures ReplayHistory(ps, hist, j).Ok?
    decreases k
  {
    if j < k { HistoryPrefix(ps, hist, j, k - 1); }
  }

  /** The replay of the first positions reads nothing but these positions. */
  lemma {:induction false} HistoryFrame(
    ps: seq<Position>, hist: seq<seq<Event>>, ps': seq<Position>, hist': seq<seq<Event>>, k: nat)
    requires k <= |ps| && k <= |hist| && k <= |ps'| && k <= |hist'|
    requires ps[..k] == ps'[..k] && hist[..k] == hist'[..k]
    ensures ReplayHistory(ps, hist, k) == ReplayHistory(ps', hist', k)
    decreases k
  {
    if k > 0 {
      assert ps[k - 1] == ps[..k][k - 1] == ps'[k - 1];
      assert hist[k - 1] == hist[..k][k - 1] == hist'[k - 1];
      assert ps[..k - 1] == ps[..k][..k - 1] == ps'[..k - 1];
      assert hist[..k - 1] == hist[..k][..k - 1] == hist'[..k - 1];
      HistoryFrame(ps, hist, ps', hist', k - 1);
    }
  }

  // ---------------------------------------------------------------- rows

  /** What every replayed row satisfies: the meta fields agree with the columns. */
  predicate RowOk(row: ModelRow) {
    && META_DELETED in row.data && row.data[META_DELETED] == Bool(row.deleted)
    && META_POSITION in row.data && row.data[META_POSITION].Int?
  }

  predicate RowsOk(models: Models) { forall f | f in models :: RowOk(models[f]) }

  lemma StepKeepsRowOk(row: Option<ModelRow>, e: Event, pos: Position)
    requires row.Some? ==> RowOk(row.value)
    requires Step(row, e, pos).Ok?
    ensures RowOk(Step(row, e, pos).value)
    ensures Step(row, e, pos).value.data[META_POSITION] == Int(pos)
    ensures Step(row, e, pos).value.deleted <==> e.Delete?
  {
    MetaFieldsAreReserved();
    if e.ListUpdate? {
      var data := row.value.data[META_POSITION := Int(pos)];
      assert Applied(data, e.add, e.remove).value.Keys == Touched(data, e.add, e.remove);
    }
  }

  lemma {:induction false} ReplayKeepsRowsOk(models: Models, es: seq<Event>, pos: Position)
    requires RowsOk(models) && ReplayEvents(models, es, pos).Ok?
    ensures RowsOk(ReplayEvents(models, es, pos).value)
    ensures models.Keys <= ReplayEvents(models, es, pos).value.Keys
    decreases |es|
  {
    if es != [] {
      var n := |es| - 1;
      ReplayKeepsRowsOk(models, es[..n], pos);
      StepKeepsRowOk(Lookup(ReplayEvents(models, es[..n], pos).value, es[n].fqid), es[n], pos);
    }
  }

  lemma {:induction false} HistoryRowsOk(ps: seq<Position>, hist: seq<seq<Event>>, k: nat)
    requires k <= |ps| && k <= |hist| && ReplayHistory(ps, hist, k).Ok?
    ensures RowsOk(ReplayHistory(ps, hist, k).value)
    decreases k
  {
    if k > 0 {
      HistoryRowsOk(ps, hist, k - 1);
      ReplayKeepsRowsOk(ReplayHistory(ps, hist, k - 1).value, hist[k - 1], ps[k - 1]);
    }
  }

  lemma {:induction false} ReplayedHasModel(models: Models, es: seq<Event>, pos: Position)
    requires ReplayEvents(models, es, pos).Ok?
    ensures models.Keys <= ReplayEvents(models, es, pos).value.Keys
    ensures forall e | e in es :: e.fqid in ReplayEvents(models, es, pos).value
    decreases |es|
  {
    hide Step;
    if es != [] { ReplayedHasModel(models, es[..|es| - 1], pos); }
  }

  /** Models are never removed: whatever had an event has a row. */
  lemma {:induction false} HistoryHasModel(ps: seq<Position>, hist: seq<seq<Event>>, k: nat)
    requires k <= |ps| && k <= |hist| && ReplayHistory(ps, hist, k).Ok?
    ensures forall j: nat, w: nat | j < k && w < |hist[j]| :: hist[j][w].fqid in ReplayHistory(ps, hist, k).value
    decreases k
  {
    hide ReplayEvents;
    if k > 0 {
      HistoryHasModel(ps, hist, k - 1);
      ReplayedHasModel(ReplayHistory(ps, hist, k - 1).value, hist[k - 1], ps[k - 1]);
    }
  }

  /** What an event does to a field that is not a reserved one, and when it can be applied at all. */
  lemma FieldAfterStep(row: Option<ModelRow>, e: Event, pos: Position, f: Field)
    requires Step(row, e, pos).Ok? && !IsReserved(f)
    ensures if e.Create? then row.None? else row.Some? && (row.value.deleted <==> e.Restore?)
    ensures var before := if row.Some? then Get(row.value.data, f) else None;
      var after := Get(Step(row, e, pos).value.data, f);
      && (e.Create? ==> after == Get(e.data, f))
      && (e.Update? ==> after == if f in e.data then Some(e.data[f]) else before)
      && (e.DeleteFields? ==> after == if f in e.fields then None else before)
      && (e.ListUpdate? && f !in e.add && (f !in e.remove || before.None?) ==> after == before)
      && (e.ListUpdate? && f in e.add && (before.Some? ==> before.value.List?) ==>
            var items := if before.Some? then before.value.items else [];
            var added := items + Without(e.add[f], items);
            after == Some(List(if f in e.remove && before.Some? then Without(added, e.remove[f]) else added)))
      && (e.ListUpdate? && f !in e.add && f in e.remove && before.Some? && before.value.List? ==>
            after == Some(List(Without(before.value.items, e.remove[f]))))
      && (e.Delete? || e.Restore? ==> after == before)
  {
    MetaFieldsAreReserved();
    if e.ListUpdate? {
      var data := row.value.data[META_POSITION := Int(pos)];
      if f in Touched(data, e.add, e.remove) && (f in data ==> data[f].List?) {
        ListUpdateMeans(data, e.add, e.remove, f);
      }
    }
  }

  /**
   * An event can be applied if it names no reserved field and gives no null, the model is missing,
   * deleted or neither as it needs it, and holds lists where it needs them.
   */
  lemma StepAccepts(row: Option<ModelRow>, e: Event, pos: Position)
    ensures Step(row, e, pos).Ok? <==>
      && (e.Create? || e.Update? ==> forall f | f in e.data :: !IsReserved(f) && e.data[f] != Null)
      && (e.DeleteFields? ==> forall f | f in e.fields :: !IsReserved(f))
      && (e.ListUpdate? ==> forall f | f in e.add || f in e.remove :: !IsReserved(f))
      && (if e.Create? then row.None? else row.Some? && (row.value.deleted <==> e.Restore?))
      && (e.ListUpdate? ==>
            && (forall f | f in e.add && f in row.value.data :: row.value.data[f].List?)
            && (forall f | f in e.remove && f !in e.add && f in row.value.data ::
                  row.value.data[f].List? || row.value.data[f].Str?))
    ensures Step(row, e, pos).Err? ==> Step(row, e, pos).error in {BadEvent, NotIterable}
    ensures Step(row, e, pos) == Err(NotIterable) ==> e.ListUpdate?
  {
    MetaFieldsAreReserved();
    if e.ListUpdate? && row.Some? {
      var data := row.value.data[META_POSITION := Int(pos)];
      ListUpdateFails(data, e.add, e.remove);
      assert forall f | !IsReserved(f) :: Get(data, f) == Get(row.value.data, f);
    }
  }

  // ---------------------------------------------------------------- rows without their position

  /** The fields a reader sees, as far as they do not tell when the row was written. */
  function Timeless(row: ModelRow): Model { row.data - {META_POSITION} }

  /** A step in terms of what is visible: the position aside, only the fields of the event change. */
  function TimelessStep(visible: Model, e: Event): Result<Model> {
    match e
    case Create(_, data) => Ok(data[META_DELETED := Bool(false)])
    case Update(_, data) => Ok(visible + data)
    case DeleteFields(_, list) => Ok(visible - (set f | f in list))
    case ListUpdate(_, add, remove) =>
      var modified :- Applied(visible, add, remove);
      Ok(visible + modified)
    case Delete(_) => Ok(visible[META_DELETED := Bool(true)])
    case Restore(_) => Ok(visible[META_DELETED := Bool(false)])
  }

  ghost predicate TimelessSame(after: Result<Model>, r: Result<ModelRow>, e: Event, pos: Position) {
    match after
    case Err(error) => r == Err(error)
    case Ok(model) =>
      && r.Ok? && Timeless(r.value) == model
      && META_POSITION in r.value.data && r.value.data[META_POSITION] == Int(pos) && r.value.deleted == e.Delete?
  }

  lemma ListStepIsTimeless(row: ModelRow, e: Event, pos: Position)
    requires e.WellFormed() && e.ListUpdate? && !row.deleted
    ensures TimelessSame(TimelessStep(Timeless(row), e), Step(Some(row), e, pos), e, pos)
  {
    hide ListValue;
    MetaFieldsAreReserved();
    var visible, data := Timeless(row), row.data[META_POSITION := Int(pos)];
    assert data - {META_POSITION} == visible;
    AppliedDependsOnNamedFields(visible, data, e.add, e.remove);
    if Applied(visible, e.add, e.remove).Ok? {
      var modified := Applied(visible, e.add, e.remove).value;
      assert modified.Keys == Touched(data, e.add, e.remove);
      assert (data + modified) - {META_POSITION} == visible + modified;
    }
  }

  lemma StepIsTimeless(row: Option<ModelRow>, e: Event, pos: Position)
    requires e.WellFormed() && (if e.Create? then row.None? else row.Some? && row.value.deleted == e.Restore?)
    ensures TimelessSame(
      TimelessStep(if row.None? then map[] else Timeless(row.value), e), Step(row, e, pos), e, pos)
  {
    hide Applied;
    MetaFieldsAreReserved();
    match e {
      case Create(_, data) =>
        assert Timeless(Step(row, e, pos).value) == data[META_DELETED := Bool(false)];
      case ListUpdate(_, _, _) =>
        ListStepIsTimeless(row.value, e, pos);
      case _ =>
        assert row.value.data[META_POSITION := Int(pos)] - {META_POSITION} == Timeless(row.value);
        assert Timeless(Step(row, e, pos).value) == TimelessStep(Timeless(row.value), e).value;
    }
  }

  // ---------------------------------------------------------------- creates first

  function Creates(es: seq<Event>): (r: seq<Event>)
    ensures forall e | e in r :: e.Create?
  {
    if es == [] then []
    else Creates(es[..|es| - 1]) + if es[|es| - 1].Create? then [es[|es| - 1]] else []
  }

  function Others(es: seq<Event>): (r: seq<Event>)
    ensures forall e | e in r :: !e.Create?
  {
    if es == [] then []
    else Others(es[..|es| - 1]) + if es[|es| - 1].Create? then [] else [es[|es| - 1]]
  }

  /** `order_events`: the creates go to the front, in their order. */
  function CreatesFirst(es: seq<Event>): seq<Event> { Creates(es) + Others(es) }

  /** Both parts go through the events one after the other, so that creates and others keep their order. */
  lemma {:induction false} CreatesInOrder(a: seq<Event>, b: seq<Event>)
    ensures Creates(a + b) == Creates(a) + Creates(b)
    decreases |b|
  {
    if b == [] {
      assert a + b == a;
    } else {
      var n := |b| - 1;
      assert (a + b)[..|a + b| - 1] == a + b[..n] && (a + b)[|a + b| - 1] == b[n];
      CreatesInOrder(a, b[..n]);
    }
  }

  lemma {:induction false} OthersInOrder(a: seq<Event>, b: seq<Event>)
    ensures Others(a + b) == Others(a) + Others(b)
    decreases |b|
  {
    if b == [] {
      assert a + b == a;
    } else {
      var n := |b| - 1;
      assert (a + b)[..|a + b| - 1] == a + b[..n] && (a + b)[|a + b| - 1] == b[n];
      OthersInOrder(a, b[..n]);
    }
  }

  lemma PartsOfOne(e: Event)
    ensures Creates([e]) == (if e.Create? then [e] else []) && Others([e]) == if e.Create? then [] else [e]
  {
    assert [e][..0] == [];
    assert Creates([]) == [] && Others([]) == [];
  }

  lemma SwapCreate(models: Models, e: Event, c: Event, pos: Position)
    requires !e.Create? && c.Create?
    requires ReplayEvents(models, [e, c], pos).Ok?
    ensures ReplayEvents(models, [c, e], pos) == ReplayEvents(models, [e, c], pos)
  {
    hide Applied;
    assert [e, c] == [e] + [c] && [c, e] == [c] + [e];
    ReplayConcat(models, [e], [c], pos);
    ReplayConcat(models, [c], [e], pos);
    ReplayOne(models, e, pos);
    ReplayOne(models, c, pos);
    var m1 := ApplyEvent(models, e, pos).value;
    ReplayOne(m1, c, pos);
    var m2 := ApplyEvent(models, c, pos).value;
    ReplayOne(m2, e, pos);
    assert e.fqid != c.fqid;
    assert Lookup(m2, e.fqid) == Lookup(models, e.fqid);
    assert m1[c.fqid := Step(None, c, pos).value] ==
      m2[e.fqid := Step(Lookup(models, e.fqid), e, pos).value];
  }

  lemma {:induction false} CreateBeforeOthers(models: Models, others: seq<Event>, c: Event, pos: Position)
    requires c.Create? && forall e | e in others :: !e.Create?
    requires ReplayEvents(models, others + [c], pos).Ok?
    ensures ReplayEvents(models, [c] + others, pos) == ReplayEvents(models, others + [c], pos)
    decreases |others|
  {
    hide ApplyEvent;
    if others == [] {
      assert [c] + others == [c] && others + [c] == [c];
    } else {
      var n := |others| - 1;
      var front, e := others[..n], others[n];
      assert others + [c] == front + [e, c];
      ReplayConcat(models, front, [e, c], pos);
      var m := ReplayEvents(models, front, pos).value;
      SwapCreate(m, e, c, pos);
      ReplayConcat(models, front, [c, e], pos);
      assert front + [c, e] == (front + [c]) + [e];
      ReplayConcat(models, front + [c], [e], pos);
      CreateBeforeOthers(models, front, c, pos);
      assert [c] + others == ([c] + front) + [e];
      ReplayConcat(models, [c] + front, [e], pos);
    }
  }

  lemma CreateBackToCreates(models: Models, cs: seq<Event>, os: seq<Event>, c: Event, pos: Position)
    requires c.Create? && forall e | e in os :: !e.Create?
    requires ReplayEvents(models, cs + os + [c], pos).Ok?
    ensures ReplayEvents(models, cs + [c] + os, pos) == ReplayEvents(models, cs + os + [c], pos)
  {
    hide ReplayEvents;
    assert cs + os + [c] == cs + (os + [c]) && cs + [c] + os == cs + ([c] + os);
    ReplayConcat(models, cs, os + [c], pos);
    ReplayConcat(models, cs, [c] + os, pos);
    CreateBeforeOthers(ReplayEvents(models, cs, pos).value, os, c, pos);
  }

  /** Reordering a position that replays changes nothing: no fqid has an event before its create. */
  lemma {:induction false} CreatesFirstKeepsReplay(models: Models, es: seq<Event>, pos: Position)
    requires ReplayEvents(models, es, pos).Ok?
    ensures ReplayEvents(models, CreatesFirst(es), pos) == ReplayEvents(models, es, pos)
    decreases |es|
  {
    hide ReplayEvents;
    if es == [] {
      assert CreatesFirst(es) == es;
    } else {
      var front, e := es[..|es| - 1], es[|es| - 1];
      var cs, os := Creates(front), Others(front);
      assert es == front + [e];
      ReplayConcat(models, front, [e], pos);
      CreatesFirstKeepsReplay(models, front, pos);
      ReplayConcat(models, cs + os, [e], pos);
      if e.Create? {
        CreateBackToCreates(models, cs, os, e, pos);
        assert CreatesFirst(es) == cs + [e] + os;
      } else {
        assert CreatesFirst(es) == cs + os + [e];
      }
    }
  }
}
