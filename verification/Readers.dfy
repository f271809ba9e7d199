/** Reading models, now or at an earlier position: both ways see the replay of the history. */
module Readers {
  import opened Types
  import ListFields
  import opened Replay
  import opened Tables
  import opened History
  import opened LockIndex
  import opened LockLaws
  import opened Backend
  import opened MappedFieldsRequests

  datatype DeletedModelsBehaviour = NoDeleted | OnlyDeleted | AllModels

  predicate Wanted(flag: DeletedModelsBehaviour, deleted: bool) { flag.AllModels? || deleted == flag.OnlyDeleted? }

  /** The fields asked for, without null values; no fields stand for all of them. */
  function Mapped(data: Model, fields: set<Field>): Model {
    if fields == {} then data else map f | f in fields && f in data && data[f] != Null :: data[f]
  }

  /** Of the data just the non-null values of these fields. */
  ghost predicate OnlyFields(model: Model, data: Model, fields: set<Field>) {
    && (forall f :: f in model <==> f in fields && f in data && data[f] != Null)
    && (forall f | f in model :: model[f] == data[f])
  }

  /** What a read of one model answers, in terms of the models it reads from. */
  function Expected(models: Models, f: Fqid, fields: set<Field>, flag: DeletedModelsBehaviour): Result<Model> {
    if f in models && Wanted(flag, models[f].deleted) then Ok(Mapped(models[f].data, fields))
    else if flag.OnlyDeleted? then Err(ModelNotDeleted(f))
    else Err(ModelDoesNotExist(f))
  }

  function FieldSet(fields: seq<Field>): set<Field> { set f | f in fields }

  /** How many positions a read looks at; zero counts as no position. */
  ghost function Horizon(log: Log, position: Option<Position>): (k: nat)
    ensures k <= |log.ps|
  {
    if position.None? || position.value == 0 then |log.ps| else CountUpTo(log.ps, position.value)
  }

  ghost function ModelsFor(log: Log, position: Option<Position>): Result<Models>
    requires |log.ps| == |log.hist|
  {
    ReplayHistory(log.ps, log.hist, Horizon(log, position))
  }

  predicate Reaches(p: Position, position: Option<Position>) {
    position.None? || position.value == 0 || p <= position.value
  }

  lemma HorizonSplits(db: Database, position: Option<Position>)
    requires StoreOk(db)
    ensures |db.positions| == |db.history| && HoldsHistory(db.events, PositionsOf(db.positions), db.history)
    ensures forall i | 0 <= i < |db.positions| ::
      Reaches(db.positions[i].position, position) <==> i < Horizon(LogOf(db), position)
    ensures ModelsFor(LogOf(db), position).Ok?
    ensures position.None? || position.value == 0 ==> ModelsFor(LogOf(db), position) == Ok(db.models)
  {
    hide HoldsHistory, IndexOk, SequencesOk;
    var log := LogOf(db);
    if position.Some? { CountSplits(log.ps, position.value); }
    HistoryPrefix(log.ps, log.hist, Horizon(log, position), |log.ps|);
  }

  /** `build_model_from_events` as a function of the events. */
  function BuiltModel(es: seq<PositionedEvent>): Result<Model> {
    var model :- Built(es);
    Ok(model[META_POSITION := Int(es[|es| - 1].position)])
  }

  lemma {:induction false} BuiltFailsEarly(es: seq<PositionedEvent>, i: nat)
    requires 1 <= i <= |es| && Built(es[..i]).Err?
    ensures Built(es) == Built(es[..i])
    decreases |es|
  {
    hide TimelessStep;
    if i == |es| {
      assert es[..i] == es;
    } else {
      var front := es[..|es| - 1];
      assert front[..i] == es[..i];
      BuiltFailsEarly(front, i);
    }
  }

  method BuildModelFromEvents(es: seq<PositionedEvent>) returns (r: Result<Model>)
    ensures r == BuiltModel(es)
  {
    hide TimelessStep;
    if es == [] {
      return Err(BadCoding);
    }
    assert es[..1] == [es[0]];
    if !es[0].event.Create? {
      BuiltFailsEarly(es, 1);
      return Err(BadCoding);
    }
    var model := FirstModel(es[0].event);
    for i := 1 to |es|
      invariant Built(es[..i]) == Ok(model)
    {
      assert es[..i + 1][..i] == es[..i];
      var step := ApplyBuilt(model, es[i].event);
      if step.Err? {
        BuiltFailsEarly(es, i + 1);
        return Err(step.error);
      }
      model := step.value;
    }
    assert es[..|es|] == es;
    r := Ok(model[META_POSITION := Int(es[|es| - 1].position)]);
  }

  method FirstModel(e: Event) returns (model: Model)
    requires e.Create?
    ensures TimelessStep(map[], e) == Ok(model)
  {
    model := e.data[META_DELETED := Bool(false)];
  }

  /** The body of the loop, one event on the dictionary. */
  method ApplyBuilt(before: Model, e: Event) returns (r: Result<Model>)
    ensures r == if e.Create? then Err(BadCoding) else TimelessStep(before, e)
  {
    var model := before;
    match e {
      case Update(_, data) =>
        model := model + data;
      case DeleteFields(_, fields) =>
        for i := 0 to |fields|
          invariant model == before - (set f | f in fields[..i])
        {
          if fields[i] in model {
            model := map f | f in model && f != fields[i] :: model[f];
          }
        }
        assert fields[..|fields|] == fields;
      case ListUpdate(_, add, remove) =>
        var modified := ListFields.ApplyFields(model, add, remove);
        if modified.Err? {
          return Err(modified.error);
        }
        model := model + modified.value;
      case Delete(_) =>
        model := model[META_DELETED := Bool(true)];
      case Restore(_) =>
        model := model[META_DELETED := Bool(false)];
      case Create(_, _) =>
        return Err(BadCoding);
    }
    r := Ok(model);
  }

  /** What a reading row holds, so far as the first `i` positions go. */
  ghost function SeenUpTo(log: Log, i: nat, position: Option<Position>): (k: nat)
    ensures k <= i && k <= |log.ps|
  {
    if i <= Horizon(log, position) then i else Horizon(log, position)
  }

  class ReaderService {
    const db: Database

    constructor (db: Database)
      ensures this.db == db
    {
      this.db := db;
    }

    /** `select ... from events where fqid = f and position <= p order by position, weight`. */
    method SelectOwnEvents(f: Fqid, position: Option<Position>) returns (own: seq<PositionedEvent>)
      requires StoreOk(db)
      ensures |db.positions| == |db.history|
      ensures own == OwnEvents(PositionsOf(db.positions), db.history, Horizon(LogOf(db), position), f)
    {
      hide StoreOk, Holds, Horizon;
      HorizonSplits(db, position);
      ghost var log := LogOf(db);
      own := [];
      for i := 0 to |db.positions|
        invariant own == OwnEvents(log.ps, log.hist, SeenUpTo(log, i, position), f)
      {
        var row := db.positions[i];
        if Reaches(row.position, position) {
          var es := SelectEvents(db.events, row.position, db.history[i]);
          var part := OwnPart(es, row.position, f);
          own := own + part;
        }
      }
    }

    method OwnPart(es: seq<Event>, position: Position, f: Fqid) returns (part: seq<PositionedEvent>)
      ensures part == Own(es, position, f)
    {
      part := [];
      for j := 0 to |es|
        invariant part == Own(es[..j], position, f)
      {
        assert es[..j + 1][..j] == es[..j];
        if es[j].fqid == f {
          part := part + [PositionedEvent(position, es[j])];
        }
      }
      assert es[..|es|] == es;
    }

    /** `build_model_ignore_deleted`, whether the model is deleted or not. */
    method BuildModelIgnoreDeleted(f: Fqid, position: Option<Position>) returns (r: Result<Model>)
      requires StoreOk(db)
      ensures |db.positions| == |db.history| && ModelsFor(LogOf(db), position).Ok?
      ensures var models := ModelsFor(LogOf(db), position).value;
        r == if f in models then Ok(models[f].data) else Err(ModelDoesNotExist(f))
    {
      hide StoreOk, Horizon, Built, OwnEvents, ReplayHistory;
      HorizonSplits(db, position);
      ghost var log := LogOf(db);
      var own := SelectOwnEvents(f, position);
      BuiltIsReplayed(log.ps, log.hist, Horizon(log, position), f);
      if own == [] {
        return Err(ModelDoesNotExist(f));
      }
      r := BuildModelFromEvents(own);
      ghost var row := ModelsFor(log, position).value[f];
      assert Timeless(row)[META_POSITION := row.data[META_POSITION]] == row.data;
    }

    /** The last positions with an event that can change the status: `max(position) ... group by fqid`. */
    method LastStatusPositions(fqids: set<Fqid>, position: Option<Position>) returns (last: map<Fqid, Position>)
      requires StoreOk(db)
      ensures |db.positions| == |db.history|
      ensures forall f :: f in last <==> f in fqids && LastStatus(db.history, Horizon(LogOf(db), position), f).Some?
      ensures forall f | f in last ::
        last[f] == PositionsOf(db.positions)[LastStatus(db.history, Horizon(LogOf(db), position), f).value]
    {
      hide StoreOk, Holds, Horizon, HasStatus, LastStatus, ReplayHistory, Ascending;
      HorizonSplits(db, position);
      ghost var log := LogOf(db);
      last := map[];
      NoStatusYet(log.hist);
      for i := 0 to |db.positions|
        invariant forall f :: f in last <==> f in fqids && LastStatus(log.hist, SeenUpTo(log, i, position), f).Some?
        invariant forall f | f in last :: last[f] == log.ps[LastStatus(log.hist, SeenUpTo(log, i, position), f).value]
      {
        var row := db.positions[i];
        assert SeenUpTo(log, i + 1, position)
          == if Reaches(row.position, position) then i + 1 else SeenUpTo(log, i, position);
        if Reaches(row.position, position) {
          assert SeenUpTo(log, i, position) == i;
          var es := SelectEvents(db.events, row.position, db.history[i]);
          last := UpdateLast(last, fqids, es, row.position);
          StatusNext(log.hist, i);
        }
      }
    }

    method UpdateLast(before: map<Fqid, Position>, fqids: set<Fqid>, es: seq<Event>, position: Position)
      returns (last: map<Fqid, Position>)
      ensures forall f :: f in last <==> f in before || (f in fqids && HasStatus(es, f))
      ensures forall f | f in last :: last[f] == if f in fqids && HasStatus(es, f) then position else before[f]
    {
      last := before + map f | f in fqids && HasStatus(es, f) :: position;
    }

    /** `get_deleted_status_from_events`: the last row of each model in that position decides. */
    method GetDeletedStatusFromEvents(fqids: set<Fqid>, position: Option<Position>) returns (r: map<Fqid, bool>)
      requires StoreOk(db)
      ensures |db.positions| == |db.history| && ModelsFor(LogOf(db), position).Ok?
      ensures var models := ModelsFor(LogOf(db), position).value;
        && (forall f :: f in r <==> f in fqids && f in models)
        && (forall f | f in r :: r[f] == models[f].deleted)
    {
      hide StoreOk, Holds, Horizon, LastStatus, EndsDeleted, ReplayHistory, Ascending;
      HorizonSplits(db, position);
      PositionsDiffer(db);
      ghost var log := LogOf(db);
      ghost var k := Horizon(log, position);
      var last := LastStatusPositions(fqids, position);
      r := map[];
      for i := 0 to |db.positions|
        invariant forall f :: f in r <==> f in last && LastStatus(log.hist, k, f).value < i
        invariant forall f | f in r :: EndsDeleted(log.hist[LastStatus(log.hist, k, f).value], f) == Some(r[f])
      {
        var row := db.positions[i];
        var es := SelectEvents(db.events, row.position, db.history[i]);
        ghost var before := r;
        r := Overwrite(r, es, set f | f in last && last[f] == row.position);
        forall f | f in last && last[f] == row.position
          ensures LastStatus(log.hist, k, f).value == i && EndsDeleted(es, f).Some?
        {
          StatusIsReplayed(log.ps, log.hist, k, f);
          LastStatusEnds(log, k, f);
        }
      }
      forall f | f in fqids
        ensures f in r <==> f in ModelsFor(log, position).value
        ensures f in r ==> r[f] == ModelsFor(log, position).value[f].deleted
      {
        StatusIsReplayed(log.ps, log.hist, k, f);
        if f in last { LastStatusEnds(log, k, f); }
      }
    }

    /** The dictionary comprehension over the rows of one position: later rows overwrite earlier ones. */
    method Overwrite(before: map<Fqid, bool>, es: seq<Event>, wanted: set<Fqid>) returns (r: map<Fqid, bool>)
      ensures forall f :: f in r <==> f in before || (f in wanted && EndsDeleted(es, f).Some?)
      ensures forall f | f in r ::
        r[f] == if f in wanted && EndsDeleted(es, f).Some? then EndsDeleted(es, f).value else before[f]
    {
      r := before;
      for j := 0 to |es|
        invariant forall f :: f in r <==> f in before || (f in wanted && EndsDeleted(es[..j], f).Some?)
        invariant forall f | f in r ::
          r[f] == if f in wanted && EndsDeleted(es[..j], f).Some? then EndsDeleted(es[..j], f).value else before[f]
      {
        assert es[..j + 1][..j] == es[..j];
        if es[j].fqid in wanted {
          r := r[es[j].fqid := es[j].Delete?];
        }
      }
      assert es[..|es|] == es;
    }

    method FilterFqidsByDeletedStatus(fqids: set<Fqid>, position: Option<Position>, flag: DeletedModelsBehaviour)
      returns (kept: set<Fqid>)
      requires StoreOk(db)
      ensures |db.positions| == |db.history| && ModelsFor(LogOf(db), position).Ok?
      ensures var models := ModelsFor(LogOf(db), position).value;
        && (flag.NoDeleted? ==> forall f :: f in kept <==> f in fqids && f in models && !models[f].deleted)
        && (flag.OnlyDeleted? ==> forall f :: f in kept <==> f in fqids && f in models && models[f].deleted)
        && (flag.AllModels? ==> kept == fqids)
    {
      hide StoreOk, Horizon, ReplayHistory;
      HorizonSplits(db, position);
      if flag.AllModels? {
        return fqids;
      }
      var deleted := GetDeletedStatusFromEvents(fqids, position);
      kept := set f | f in fqids && f in deleted && deleted[f] == flag.OnlyDeleted?;
    }

    /** A row of the result of a query, as `build_models_from_result` reads it. */
    method ResolveRow(f: Fqid, data: Model, m: MappedFields) returns (model: Model)
      requires Covered(m) && f in m.perFqid
      ensures model == Mapped(data, FieldSet(m.perFqid[f]))
    {
      var row := data;
      if !m.needsWholeModel {
        row := map field | field in m.uniqueFields :: if field in data then data[field] else Null;
      }
      var fields := m.perFqid[f];
      if |fields| == 0 {
        assert m.needsWholeModel;
        assert FieldSet(fields) == {};
        return row;
      }
      model := map[];
      for i := 0 to |fields|
        invariant model == map field | field in fields[..i] && field in data && data[field] != Null :: data[field]
      {
        assert Has(m.perFqid, f, fields[i]);
        if fields[i] in row && row[fields[i]] != Null {
          model := model[fields[i] := row[fields[i]]];
        }
      }
      assert fields[..|fields|] == fields;
      assert fields[0] in FieldSet(fields);
    }

    /** `get_many` on the table `models`. */
    method SelectModels(m: MappedFields, flag: DeletedModelsBehaviour) returns (r: map<Fqid, Model>)
      requires Covered(m)
      ensures flag.NoDeleted? ==> forall f :: f in r <==> f in m.perFqid && f in db.models && !db.models[f].deleted
      ensures flag.OnlyDeleted? ==> forall f :: f in r <==> f in m.perFqid && f in db.models && db.models[f].deleted
      ensures flag.AllModels? ==> forall f :: f in r <==> f in m.perFqid && f in db.models
      ensures forall f | f in r :: r[f] == Mapped(db.models[f].data, FieldSet(m.perFqid[f]))
    {
      hide Mapped, FieldSet, Covered;
      r := map[];
      var todo := set f | f in m.perFqid && f in db.models && Wanted(flag, db.models[f].deleted);
      while todo != {}
        invariant forall f :: f in r || f in todo <==>
          f in m.perFqid && f in db.models && Wanted(flag, db.models[f].deleted)
        invariant forall f | f in r :: r[f] == Mapped(db.models[f].data, FieldSet(m.perFqid[f]))
        decreases |todo|
      {
        var f := Pick(todo);
        todo := todo - {f};
        var model := ResolveRow(f, db.models[f].data, m);
        r := r[f := model];
      }
    }

    function ApplyMappedFields(model: Model, fields: seq<Field>): (r: Model)
      ensures r == Mapped(model, FieldSet(fields))
    {
      assert |fields| > 0 ==> fields[0] in FieldSet(fields);
      if |fields| == 0 then model
      else map field | field in fields && field in model && model[field] != Null :: model[field]
    }

    /** `get`: with a position or without one, the answer is read off the models of that moment. */
    method Get(f: Fqid, fields: seq<Field>, position: Option<Position>, flag: DeletedModelsBehaviour)
      returns (r: Result<Model>)
      requires StoreOk(db)
      ensures |db.positions| == |db.history| && ModelsFor(LogOf(db), position).Ok?
      ensures r == Expected(ModelsFor(LogOf(db), position).value, f, FieldSet(fields), flag)
      ensures var models := ModelsFor(LogOf(db), position).value;
        && (flag.NoDeleted? ==> (r.Ok? <==> f in models && !models[f].deleted))
        && (flag.OnlyDeleted? ==> (r.Ok? <==> f in models && models[f].deleted))
        && (flag.AllModels? ==> (r.Ok? <==> f in models))
        && (r.Ok? && fields == [] ==> r.value == models[f].data)
        && (r.Ok? && fields != [] ==> OnlyFields(r.value, models[f].data, set g | g in fields))
      ensures r.Err? ==> r.error == if flag.OnlyDeleted? then ModelNotDeleted(f) else ModelDoesNotExist(f)
    {
      hide StoreOk, Horizon, ReplayHistory, Mapped, Covered;
      HorizonSplits(db, position);
      ghost var models := ModelsFor(LogOf(db), position).value;
      if f in models { MappedMeans(models[f].data, fields); }
      var missing := if flag.OnlyDeleted? then ModelNotDeleted(f) else ModelDoesNotExist(f);
      if position.Some? && position.value != 0 {
        var kept := FilterFqidsByDeletedStatus({f}, position, flag);
        if kept == {} {
          assert f !in kept;
          return Err(missing);
        }
        assert f in kept;
        var model := BuildModelIgnoreDeleted(f, position);
        if model.Err? {
          return model;
        }
        return Ok(ApplyMappedFields(model.value, fields));
      }
      var m := BuildForGet(f, fields);
      SameFieldSet(m, f, fields);
      var selected := SelectModels(m, flag);
      r := if f in selected then Ok(selected[f]) else Err(missing);
    }

    /** `get_many`, up to the regrouping by collection. At a position, some model must pass the filter. */
    method GetMany(request: GetManyRequest, position: Option<Position>, flag: DeletedModelsBehaviour)
      returns (r: Result<map<Fqid, Model>>)
      requires StoreOk(db)
      ensures |db.positions| == |db.history| && ModelsFor(LogOf(db), position).Ok?
      ensures var models := ModelsFor(LogOf(db), position).value;
        && (r.Err? ==> r.error == DatabaseError)
        && (r.Err? <==> position.Some? && position.value != 0 && NonePasses(models, request, flag))
        && (r.Ok? && flag.NoDeleted? ==>
              forall f :: f in r.value <==> Names(request, f) && f in models && !models[f].deleted)
        && (r.Ok? && flag.OnlyDeleted? ==>
              forall f :: f in r.value <==> Names(request, f) && f in models && models[f].deleted)
        && (r.Ok? && flag.AllModels? ==> forall f :: f in r.value <==> Names(request, f) && f in models)
        && (r.Ok? ==> forall f | f in r.value :: Answers(request, f, models[f].data, r.value[f]))
    {
      hide StoreOk, Horizon, ReplayHistory, Mapped, Covered, Names, AsksFor, Has, Answers, FieldSet;
      HorizonSplits(db, position);
      var m := BuildForGetMany(request);
      FieldsAnswer(request, m);
      if position.Some? && position.value != 0 {
        var kept := FilterFqidsByDeletedStatus(m.perFqid.Keys, position, flag);
        if kept == {} {
          assert forall f :: f !in kept;
          return Err(DatabaseError);
        }
        var f0 := Pick(kept);
        var built := BuildMany(kept, m, position);
        return Ok(built);
      }
      var selected := SelectModels(m, flag);
      r := Ok(selected);
    }

    /** Build each model that has events, then apply its mapped fields. */
    method BuildMany(fqids: set<Fqid>, m: MappedFields, position: Option<Position>) returns (r: map<Fqid, Model>)
      requires StoreOk(db) && fqids <= m.perFqid.Keys
      ensures |db.positions| == |db.history| && ModelsFor(LogOf(db), position).Ok?
      ensures var models := ModelsFor(LogOf(db), position).value;
        && (forall f :: f in r <==> f in fqids && f in models)
        && (forall f | f in r :: r[f] == Mapped(models[f].data, FieldSet(m.perFqid[f])))
    {
      hide StoreOk, Horizon, ReplayHistory, Mapped, FieldSet;
      HorizonSplits(db, position);
      ghost var models := ModelsFor(LogOf(db), position).value;
      r := map[];
      var todo := fqids;
      while todo != {}
        invariant todo <= fqids
        invariant forall f :: f in r <==> f in fqids && f !in todo && f in models
        invariant forall f | f in r :: r[f] == Mapped(models[f].data, FieldSet(m.perFqid[f]))
        decreases |todo|
      {
        var f := Pick(todo);
        todo := todo - {f};
        var model := BuildModelIgnoreDeleted(f, position);
        if model.Ok? {
          r := r[f := ApplyMappedFields(model.value, m.perFqid[f])];
        }
      }
    }
  }

  ghost predicate NonePasses(models: Models, request: GetManyRequest, flag: DeletedModelsBehaviour) {
    match flag
    case NoDeleted => forall f | Names(request, f) :: f !in models || models[f].deleted
    case OnlyDeleted => forall f | Names(request, f) :: f !in models || !models[f].deleted
    case AllModels => forall f :: !Names(request, f)
  }

  lemma MappedMeans(data: Model, fields: seq<Field>)
    ensures fields == [] ==> Mapped(data, FieldSet(fields)) == data
    ensures fields != [] ==> OnlyFields(Mapped(data, FieldSet(fields)), data, set g | g in fields)
  {
    if fields != [] { assert fields[0] in FieldSet(fields); }
  }

  ghost predicate AreAskedFor(request: GetManyRequest, f: Fqid, fields: set<Field>) {
    forall field :: field in fields <==> AsksFor(request, f, field)
  }

  /** Of the data just the fields that the request asks for on this model, or all of them. */
  ghost predicate Answers(request: GetManyRequest, f: Fqid, data: Model, model: Model) {
    exists fields: set<Field> :: AreAskedFor(request, f, fields) && model == Mapped(data, fields)
  }

  lemma AnswersMean(request: GetManyRequest, f: Fqid, data: Model, model: Model)
    requires Answers(request, f, data, model)
    ensures (forall field :: !AsksFor(request, f, field)) ==> model == data
    ensures forall field | AsksFor(request, f, field) ::
      (field in model <==> field in data && data[field] != Null) && (field in model ==> model[field] == data[field])
    ensures forall field, other | field in model && AsksFor(request, f, other) :: AsksFor(request, f, field)
  {
    hide AsksFor;
    var fields :| AreAskedFor(request, f, fields) && model == Mapped(data, fields);
    if forall field :: !AsksFor(request, f, field) {
      assert fields == {};
    }
  }

  lemma FieldsAnswer(request: GetManyRequest, m: MappedFields)
    requires forall f, field :: Has(m.perFqid, f, field) <==> AsksFor(request, f, field)
    ensures forall f, data | f in m.perFqid :: Answers(request, f, data, Mapped(data, FieldSet(m.perFqid[f])))
  {
    forall f, data | f in m.perFqid
      ensures Answers(request, f, data, Mapped(data, FieldSet(m.perFqid[f])))
    {
      assert forall field :: field in FieldSet(m.perFqid[f]) <==> Has(m.perFqid, f, field);
      assert AreAskedFor(request, f, FieldSet(m.perFqid[f]));
    }
  }

  lemma SameFieldSet(m: MappedFields, f: Fqid, fields: seq<Field>)
    requires f in m.perFqid && forall field :: Has(m.perFqid, f, field) <==> field in fields
    ensures FieldSet(m.perFqid[f]) == FieldSet(fields)
  {
    forall field
      ensures field in FieldSet(m.perFqid[f]) <==> field in FieldSet(fields)
    {
      assert Has(m.perFqid, f, field) <==> field in fields;
    }
  }

  // ---------------------------------------------------------------- historic reads

  /** A read at the current position sees what a read without a position sees. */
  lemma CurrentPosition(db: Database)
    requires StoreOk(db) && db.positions != []
    ensures |db.positions| == |db.history|
    ensures ModelsFor(LogOf(db), Some(db.positions[|db.positions| - 1].position)) == Ok(db.models)
    ensures ModelsFor(LogOf(db), None) == Ok(db.models)
  {
    hide HoldsHistory, IndexOk, SequencesOk;
    var n := |db.positions|;
    var now := Some(db.positions[n - 1].position);
    HorizonSplits(db, None);
    HorizonSplits(db, now);
    assert Reaches(db.positions[n - 1].position, now);
  }

  /** Later writes do not change what is read at an earlier position. */
  lemma LaterWrites(log: Log, log': Log, p: Position)
    requires |log.ps| == |log.hist| <= |log'.ps| == |log'.hist| && Ascending(log'.ps)
    requires log.ps == log'.ps[..|log.ps|] && log.hist == log'.hist[..|log.ps|]
    requires p > 0 && forall i | |log.ps| <= i < |log'.ps| :: log'.ps[i] > p
    ensures ModelsFor(log', Some(p)) == ModelsFor(log, Some(p))
  {
    assert forall i | 0 <= i < |log.ps| :: log.ps[i] == log'.ps[i];
    CountSplits(log.ps, p);
    CountSplits(log'.ps, p);
    var k, k' := CountUpTo(log.ps, p), CountUpTo(log'.ps, p);
    assert k < |log.ps| ==> !(log.ps[k] <= p);
    assert k' < |log'.ps| ==> !(log'.ps[k'] <= p);
    assert k == k';
    assert log.ps[..k] == log'.ps[..|log.ps|][..k] == log'.ps[..k];
    assert log.hist[..k] == log'.hist[..|log.ps|][..k] == log'.hist[..k];
    HistoryFrame(log.ps, log.hist, log'.ps, log'.hist, k);
  }

  lemma NoStatusYet(hist: seq<seq<Event>>)
    ensures forall f :: LastStatus(hist, 0, f) == None
  {}

  lemma StatusNext(hist: seq<seq<Event>>, i: nat)
    requires i < |hist|
    ensures forall f ::
      LastStatus(hist, i + 1, f) == if HasStatus(hist[i], f) then Some(i) else LastStatus(hist, i, f)
  {
    hide HasStatus;
  }

  lemma PositionsDiffer(db: Database)
    requires StoreOk(db)
    ensures forall i, j | 0 <= i < |db.positions| && 0 <= j < |db.positions| ::
      db.positions[i].position == db.positions[j].position ==> i == j
  {
    hide HoldsHistory, CacheOk, IndexOk, SequencesOk;
    var ps := PositionsOf(db.positions);
    assert forall i, j | 0 <= i < j < |ps| :: ps[i] < ps[j];
  }

  lemma LastStatusEnds(log: Log, k: nat, f: Fqid)
    requires |log.ps| == |log.hist| && k <= |log.ps| && ReplayHistory(log.ps, log.hist, k).Ok?
    requires LastStatus(log.hist, k, f).Some?
    ensures EndsDeleted(log.hist[LastStatus(log.hist, k, f).value], f).Some?
  {
    var i := LastStatus(log.hist, k, f).value;
    HistoryPrefix(log.ps, log.hist, i + 1, k);
    StatusWithin(ReplayHistory(log.ps, log.hist, i).value, log.hist[i], log.ps[i], f);
  }
}
