/** The stock migrations: no change at all, renaming a field, removing fields. */
module FieldMigrations {
  import opened Types
  import opened ListFields
  import opened Replay
  import opened Tables
  import opened EventMigrations
  import opened Simulations

  function NoExtra(): (Context, Models, Models) -> Result<seq<Event>> {
    (ctx: Context, src: Models, dst: Models) => Ok([])
  }

  // ---------------------------------------------------------------- no change

  /** A migration that answers `None` to everything. */
  function NoopMigration(): EventMigration {
    EventMigration((ctx: Context, e: Event, src: Models, dst: Models) => Ok(None), NoExtra())
  }

  ghost function NoopSimulation(): Simulation {
    Simulation((e: Event) => e,
      (now: Position, f: Fqid, x: ModelRow, y: ModelRow) => y == x,
      (e: Event) => !IsNoop(e))
  }

  /** No event of the first `k` positions is an empty one. */
  ghost predicate NoNoops(s: Source, mi: int, k: nat)
    requires s.Has(mi, k)
  {
    forall j: nat | 1 <= j <= k && s.Has(mi, j) && Evs(s, mi, j).Ok? ::
      forall e | e in Evs(s, mi, j).value :: !IsNoop(e)
  }

  lemma NoopSound()
    ensures Sound(NoopSimulation()) && Implements(NoopMigration(), NoopSimulation())
  {
    hide Step, IsNoop;
  }

  /** Without empty events, a migration that changes nothing leaves every model at every position. */
  lemma NoopKeepsModels(s: Source, mi: int, k: nat)
    requires s.Has(mi, k) && s.Has(mi + 1, k) && Ascending(s.ps)
    requires Implements(s.migs[mi - 1], NoopSimulation()) && ModelsAt(s, mi, k).Ok? && NoNoops(s, mi, k)
    ensures ModelsAt(s, mi + 1, k) == ModelsAt(s, mi, k)
  {
    hide Sound, Implements, ModelsAt, Evs, IsNoop, Translated;
    NoopSound();
    MigrationSimulates(NoopSimulation(), s, mi, k);
    var before, after := ModelsAt(s, mi, k).value, ModelsAt(s, mi + 1, k).value;
    assert forall f | f in before :: NoopSimulation().related(Now(s, k), f, before[f], after[f]);
    assert after == before;
  }

  lemma {:induction false} TranslatedIsClean(sim: Simulation, es: seq<Event>)
    ensures forall e | e in Translated(sim, es) :: !IsNoop(e)
    decreases |es|
  {
    hide IsNoop;
    if es != [] { TranslatedIsClean(sim, es[..|es| - 1]); }
  }

  lemma {:induction false} ModelsPrefix(s: Source, mi: int, j: nat, k: nat)
    requires s.Has(mi, k) && j <= k && ModelsAt(s, mi, k).Ok?
    ensures s.Has(mi, j) && ModelsAt(s, mi, j).Ok?
    decreases k
  {
    hide Evs;
    if j < k { ModelsPrefix(s, mi, j, k - 1); }
  }

  lemma EventsThere(s: Source, mi: int, k: nat)
    requires s.Has(mi, k) && k > 0 && ModelsAt(s, mi, k).Ok?
    ensures Evs(s, mi, k).Ok?
  {}

  lemma NoNoopsStay(s: Source, mi: int, k: nat)
    requires s.Has(mi, k) && s.Has(mi + 1, k) && Ascending(s.ps)
    requires Implements(s.migs[mi - 1], NoopSimulation()) && ModelsAt(s, mi, k).Ok? && NoNoops(s, mi, k)
    ensures NoNoops(s, mi + 1, k)
  {
    hide Sound, Implements, ModelsAt, Evs, IsNoop, Translated;
    NoopSound();
    var next := mi + 1;
    forall j: nat | 1 <= j <= k && s.Has(next, j) && Evs(s, next, j).Ok?
      ensures forall e | e in Evs(s, next, j).value :: !IsNoop(e)
    {
      ModelsPrefix(s, mi, j, k);
      EventsThere(s, mi, j);
      MigrationSimulates(NoopSimulation(), s, mi, j);
      TranslatedIsClean(NoopSimulation(), CreatesFirst(Evs(s, mi, j).value));
    }
  }

  /** Any number of migrations that change nothing leave every model at every position. */
  lemma {:induction false} NoopsKeepModels(s: Source, mi: int, target: int, k: nat)
    requires s.Has(mi, k) && s.Has(target, k) && mi <= target && Ascending(s.ps)
    requires forall j | mi - 1 <= j < target - 1 :: Implements(s.migs[j], NoopSimulation())
    requires ModelsAt(s, mi, k).Ok? && NoNoops(s, mi, k)
    ensures ModelsAt(s, target, k) == ModelsAt(s, mi, k)
    decreases target - mi
  {
    hide ModelsAt, Evs, NoNoops, Implements;
    if mi < target {
      NoopKeepsModels(s, mi, k);
      NoNoopsStay(s, mi, k);
      NoopsKeepModels(s, mi + 1, target, k);
    }
  }

  /**
   * An all-empty list update is dropped by every migration. That goes unnoticed exactly if the model
   * already has all fields of the addition and no field of the removal holds a text.
   */
  lemma DroppedListUpdate(row: ModelRow, e: Event, pos: Position)
    requires e.ListUpdate? && IsNoop(e) && RowOk(row) && Step(Some(row), e, pos).Ok?
    ensures Timeless(Step(Some(row), e, pos).value) == Timeless(row) <==>
      e.add.Keys <= row.data.Keys && forall f | f in e.remove.Keys * row.data.Keys :: row.data[f].List?
  {
    hide Without;
    var data := row.data[META_POSITION := Int(pos)];
    var after := Step(Some(row), e, pos).value;
    var touched := Touched(data, e.add, e.remove);
    MetaFieldsAreReserved();
    forall f | f in touched
      ensures f != META_POSITION
      ensures f in data && data[f].List? ==> after.data[f] == data[f]
      ensures after.data[f].List?
    {
      if f in data && data[f].List? {
        WithoutNothing(data[f].items);
        NothingWithout(data[f].items);
      }
    }
    if e.add.Keys <= row.data.Keys && forall f | f in e.remove.Keys * row.data.Keys :: row.data[f].List? {
      forall f | f in touched
        ensures f in data && data[f].List?
      {
        assert f in e.add ==> ListValue(data, e.add, e.remove, f).Some?;
      }
      assert after.data == data;
      assert Timeless(after) == Timeless(row);
    } else if f :| f in e.add.Keys && f !in row.data.Keys {
      assert f in touched;
      assert f in Timeless(after) && f !in Timeless(row);
    } else {
      var f :| f in e.remove.Keys * row.data.Keys && !row.data[f].List?;
      assert f in touched;
      assert Timeless(after)[f] != Timeless(row)[f];
    }
  }

  lemma {:induction false} WithoutNothing(xs: seq<Json>)
    ensures Without(xs, []) == xs
  {
    if xs != [] { WithoutNothing(xs[1..]); }
  }

  lemma NothingWithout(xs: seq<Json>)
    ensures xs + Without([], xs) == xs
  {}

  // ---------------------------------------------------------------- renaming

  /** `modify`: the value of the old key under the new key, the old key gone. */
  function Renamed<V>(m: map<Field, V>, from: Field, to: Field): map<Field, V> {
    if from in m then m[to := m[from]] - {from} else m
  }

  /** Python's `list.remove`: the first occurrence goes. */
  function RemoveFirst(fields: seq<Field>, field: Field): (r: seq<Field>)
    ensures forall f | f != field :: f in r <==> f in fields
  {
    if fields == [] then []
    else if fields[0] == field then fields[1..]
    else [fields[0]] + RemoveFirst(fields[1..], field)
  }

  function RenamedEvent(e: Event, from: Field, to: Field): Event {
    match e
    case Create(f, data) => Create(f, Renamed(data, from, to))
    case Update(f, data) => Update(f, Renamed(data, from, to))
    case DeleteFields(f, fields) => DeleteFields(f, if from in fields then RemoveFirst(fields, from) + [to] else fields)
    case ListUpdate(f, add, remove) => ListUpdate(f, Renamed(add, from, to), Renamed(remove, from, to))
    case _ => e
  }

  method Modify<V>(m: map<Field, V>, from: Field, to: Field) returns (r: map<Field, V>)
    ensures r == Renamed(m, from, to)
    ensures from !in m ==> r == m
    ensures from in m ==>
      from !in r && forall f | f != from :: Get(r, f) == if f == to then Some(m[from]) else Get(m, f)
  {
    r := m;
    if from in r {
      r := r[to := r[from]];
      r := map f | f in r && f != from :: r[f];
    }
  }

  /** Renaming back gives what there was exactly if nothing had the new name. */
  lemma RenamedBack<V>(m: map<Field, V>, from: Field, to: Field)
    ensures Renamed(Renamed(m, from, to), to, from) == m <==> to !in m
  {
    var there, back := Renamed(m, from, to), Renamed(Renamed(m, from, to), to, from);
    if to in m {
      assert to !in back;
    } else if from in m {
      assert there[to] == m[from] && back.Keys == m.Keys;
    }
  }

  lemma {:induction false} RemoveFirstMeans(fields: seq<Field>, field: Field)
    ensures multiset(RemoveFirst(fields, field)) == multiset(fields) - multiset{field}
  {
    if fields != [] {
      assert fields == [fields[0]] + fields[1..];
      if fields[0] != field { RemoveFirstMeans(fields[1..], field); }
    }
  }

  /** The new name comes last, for one occurrence of the old one. */
  lemma RenamedFieldsMean(f: Fqid, fields: seq<Field>, from: Field, to: Field)
    requires from in fields
    ensures var renamed := RenamedEvent(DeleteFields(f, fields), from, to);
      && renamed.DeleteFields? && renamed.fqid == f && |renamed.fields| == |fields|
      && renamed.fields[|fields| - 1] == to
      && multiset(renamed.fields[..|fields| - 1]) == multiset(fields) - multiset{from}
  {
    RemoveFirstMeans(fields, from);
    var left := RemoveFirst(fields, from);
    assert |left| == |multiset(left)| && |fields| == |multiset(fields)| && from in multiset(fields);
    assert (left + [to])[..|left|] == left;
  }

  /** `RenameFieldMigration.migrate_event`. */
  method RenameEvent(collection: Collection, from: Field, to: Field, e: Event) returns (r: Option<seq<Event>>)
    ensures r == if e.fqid.collection != collection then None else Some([RenamedEvent(e, from, to)])
  {
    if e.fqid.collection != collection {
      return None;
    }
    match e {
      case Create(f, data) =>
        var renamed := Modify(data, from, to);
        r := Some([Create(f, renamed)]);
      case Update(f, data) =>
        var renamed := Modify(data, from, to);
        r := Some([Update(f, renamed)]);
      case DeleteFields(f, fields) =>
        var renamed := fields;
        if from in renamed {
          renamed := RemoveFirst(renamed, from);
          renamed := renamed + [to];
        }
        r := Some([DeleteFields(f, renamed)]);
      case ListUpdate(f, add, remove) =>
        var renamedAdd := Modify(add, from, to);
        var renamedRemove := Modify(remove, from, to);
        r := Some([ListUpdate(f, renamedAdd, renamedRemove)]);
      case Delete(_) => r := Some([e]);
      case Restore(_) => r := Some([e]);
    }
  }

  function RenameMigration(collection: Collection, from: Field, to: Field): EventMigration {
    EventMigration(
      (ctx: Context, e: Event, src: Models, dst: Models) =>
        if e.fqid.collection != collection then Ok(None) else Ok(Some([RenamedEvent(e, from, to)])),
      NoExtra())
  }

  predicate Mentions(e: Event, field: Field) {
    match e
    case Create(_, data) => field in data
    case Update(_, data) => field in data
    case DeleteFields(_, fields) => field in fields
    case ListUpdate(_, add, remove) => field in add || field in remove
    case _ => false
  }

  function RenamedRow(row: ModelRow, from: Field, to: Field): ModelRow {
    ModelRow(Renamed(row.data, from, to), row.deleted)
  }

  ghost predicate RenameRelated(collection: Collection, from: Field, to: Field, f: Fqid, x: ModelRow, y: ModelRow) {
    if f.collection == collection then to !in x.data && y == RenamedRow(x, from, to) else y == x
  }

  predicate RenameAllowed(collection: Collection, to: Field, e: Event) {
    !IsNoop(e) && (e.fqid.collection == collection ==> !Mentions(e, to))
  }

  ghost function RenameSimulation(collection: Collection, from: Field, to: Field): Simulation {
    Simulation((e: Event) => if e.fqid.collection == collection then RenamedEvent(e, from, to) else e,
      (now: Position, f: Fqid, x: ModelRow, y: ModelRow) => RenameRelated(collection, from, to, f, x, y),
      (e: Event) => RenameAllowed(collection, to, e))
  }

  lemma RenamedKeepsNoops(e: Event, from: Field, to: Field)
    requires !Mentions(e, to) && !IsNoop(e)
    ensures !IsNoop(RenamedEvent(e, from, to))
  {
    var t := RenamedEvent(e, from, to);
    match e
    case Update(_, data) =>
      var f :| f in data;
      assert (if f == from then to else f) in t.data;
    case ListUpdate(_, add, remove) =>
      if f :| f in add && add[f] != [] {
        var g := if f == from then to else f;
        assert g in t.add && t.add[g] == add[f];
      } else {
        var f :| f in remove && remove[f] != [];
        var g := if f == from then to else f;
        assert g in t.remove && t.remove[g] == remove[f];
      }
    case _ =>
  }

  /** The name of a field after the renaming. */
  function NewName(f: Field, from: Field, to: Field): Field { if f == from then to else f }

  lemma RenamedAt<V>(m: map<Field, V>, from: Field, to: Field, f: Field)
    requires to !in m && f != to
    ensures f in m <==> NewName(f, from, to) in Renamed(m, from, to)
    ensures f in m ==> Renamed(m, from, to)[NewName(f, from, to)] == m[f]
  {}

  lemma RenamedKey<V>(m: map<Field, V>, from: Field, to: Field, g: Field)
    requires to !in m && g in Renamed(m, from, to)
    ensures var f := if g == to then from else g;
      f in m && f != to && NewName(f, from, to) == g
  {}

  lemma RenamedUnion<V>(m: map<Field, V>, n: map<Field, V>, from: Field, to: Field)
    requires to !in m && to !in n
    ensures Renamed(m + n, from, to) == Renamed(m, from, to) + Renamed(n, from, to)
  {}

  lemma RenamedPut<V>(m: map<Field, V>, key: Field, value: V, from: Field, to: Field)
    requires key != from && key != to
    ensures Renamed(m[key := value], from, to) == Renamed(m, from, to)[key := value]
  {}

  lemma RenamedMinus(m: Model, fields: seq<Field>, from: Field, to: Field)
    requires to !in m && to !in fields
    ensures var fields' := if from in fields then RemoveFirst(fields, from) + [to] else fields;
      Renamed(m - (set f | f in fields), from, to) == Renamed(m, from, to) - (set f | f in fields')
  {}

  lemma RenamedAddedValue(data: Model, add: ListUpdates, from: Field, to: Field, f: Field)
    requires to !in data && to !in add && f in add
    ensures NewName(f, from, to) in Renamed(add, from, to)
    ensures AddedValue(Renamed(data, from, to), Renamed(add, from, to), NewName(f, from, to))
      == AddedValue(data, add, f)
  {
    hide Renamed, Without;
    RenamedAt(data, from, to, f);
    RenamedAt(add, from, to, f);
  }

  lemma RenamedListValue(data: Model, add: ListUpdates, remove: ListUpdates, from: Field, to: Field, f: Field)
    requires to !in data && to !in add && to !in remove && f in Touched(data, add, remove)
    ensures var data', add', remove' := Renamed(data, from, to), Renamed(add, from, to), Renamed(remove, from, to);
      var g := NewName(f, from, to);
      g in Touched(data', add', remove') && ListValue(data', add', remove', g) == ListValue(data, add, remove, f)
  {
    hide Renamed, NewName, Without, Iterated, AddedValue;
    RenamedAt(data, from, to, f);
    RenamedAt(add, from, to, f);
    RenamedAt(remove, from, to, f);
    if f in add {
      RenamedAddedValue(data, add, from, to, f);
    }
  }

  lemma RenamedTouched(data: Model, add: ListUpdates, remove: ListUpdates, from: Field, to: Field, g: Field)
    requires to !in data && to !in add && to !in remove
    requires g in Touched(Renamed(data, from, to), Renamed(add, from, to), Renamed(remove, from, to))
    ensures var f := if g == to then from else g;
      f in Touched(data, add, remove) && f != to && NewName(f, from, to) == g
  {
    hide Renamed, NewName;
    if g in Renamed(add, from, to) {
      RenamedKey(add, from, to, g);
    } else {
      RenamedKey(data, from, to, g);
      RenamedKey(remove, from, to, g);
    }
  }

  lemma RenamedLists(data: Model, add: ListUpdates, remove: ListUpdates, from: Field, to: Field)
    requires to !in data && to !in add && to !in remove
    ensures var r, r' := Applied(data, add, remove),
      Applied(Renamed(data, from, to), Renamed(add, from, to), Renamed(remove, from, to));
      if r.Err? then r' == r else r' == Ok(Renamed(r.value, from, to)) && to !in r.value
  {
    hide Renamed, NewName, ListValue;
    var data', add', remove' := Renamed(data, from, to), Renamed(add, from, to), Renamed(remove, from, to);
    var touched := Touched(data, add, remove);
    assert to !in touched;
    var r := Applied(data, add, remove);
    if r.Ok? {
      var renamed := Renamed(r.value, from, to);
      assert r.value.Keys == touched;
      forall g | g in renamed || g in Touched(data', add', remove')
        ensures g in renamed && g in Touched(data', add', remove')
        ensures renamed[g].List? && ListValue(data', add', remove', g) == Some(renamed[g].items)
      {
        var f := if g == to then from else g;
        if g in renamed {
          RenamedKey(r.value, from, to, g);
        } else {
          RenamedTouched(data, add, remove, from, to, g);
        }
        RenamedAt(r.value, from, to, f);
        RenamedListValue(data, add, remove, from, to, f);
      }
      assert renamed.Keys == Touched(data', add', remove');
      AppliedIs(data', add', remove', renamed);
    } else {
      var f :| f in touched && ListValue(data, add, remove, f).None?;
      RenamedListValue(data, add, remove, from, to, f);
      assert ListValue(data', add', remove', NewName(f, from, to)).None?;
    }
  }

  /** A step on a renamed row with the renamed event is the renamed step. */
  lemma RenameOwnStep(e: Event, a: Option<ModelRow>, from: Field, to: Field, pos: Position)
    requires !IsReserved(from) && !IsReserved(to) && !Mentions(e, to) && Step(a, e, pos).Ok?
    requires a.Some? ==> to !in a.value.data
    ensures var b := if a.None? then None else Some(RenamedRow(a.value, from, to));
      && Step(b, RenamedEvent(e, from, to), pos) == Ok(RenamedRow(Step(a, e, pos).value, from, to))
      && to !in Step(a, e, pos).value.data
  {
    hide Applied, Renamed;
    MetaFieldsAreReserved();
    RenamedWellFormed(e, from, to);
    if e.Create? {
      RenamedPut(e.data, META_POSITION, Int(pos), from, to);
      RenamedPut(e.data[META_POSITION := Int(pos)], META_DELETED, Bool(false), from, to);
    } else {
      var data := a.value.data[META_POSITION := Int(pos)];
      RenamedPut(a.value.data, META_POSITION, Int(pos), from, to);
      match e
      case Update(_, fields) => RenamedUnion(data, fields, from, to);
      case DeleteFields(_, fields) => RenamedMinus(data, fields, from, to);
      case ListUpdate(_, add, remove) =>
        RenamedLists(data, add, remove, from, to);
        RenamedUnion(data, Applied(data, add, remove).value, from, to);
      case Delete(_) => RenamedPut(data, META_DELETED, Bool(true), from, to);
      case Restore(_) => RenamedPut(data, META_DELETED, Bool(false), from, to);
    }
  }

  lemma RenamedWellFormed(e: Event, from: Field, to: Field)
    requires e.WellFormed() && !Mentions(e, to) && !IsReserved(to)
    ensures RenamedEvent(e, from, to).WellFormed()
  {}

  lemma RenameSound(collection: Collection, from: Field, to: Field)
    requires !IsReserved(from) && !IsReserved(to)
    ensures Sound(RenameSimulation(collection, from, to))
    ensures Implements(RenameMigration(collection, from, to), RenameSimulation(collection, from, to))
  {
    hide Step, IsNoop, RenamedEvent, RenamedRow, Mentions;
    var sim := RenameSimulation(collection, from, to);
    forall e, a, b, pos | sim.allowed(e) && Step(a, e, pos).Ok? && RowsRelated(sim, pos, e.fqid, a, b)
      ensures StepRelated(sim, e, a, b, pos)
    {
      if e.fqid.collection == collection {
        RenameOwnStep(e, a, from, to, pos);
        RenamedKeepsNoops(e, from, to);
        assert RenamedEvent(e, from, to).fqid == e.fqid by { RenamedFqid(e, from, to); }
      }
    }
  }

  lemma RenamedFqid(e: Event, from: Field, to: Field)
    ensures RenamedEvent(e, from, to).fqid == e.fqid
  {}

  /** Renames the field in every model of the collection. */
  function RenamedModels(models: Models, collection: Collection, from: Field, to: Field): Models {
    map f | f in models :: if f.collection == collection then RenamedRow(models[f], from, to) else models[f]
  }

  /**
   * Renaming commutes with the replay: at every position the models of the renamed events are the
   * renamed models of the events, whatever the engine does in between.
   */
  lemma RenameCommutes(collection: Collection, from: Field, to: Field, s: Source, mi: int, k: nat)
    requires s.Has(mi, k) && s.Has(mi + 1, k) && Ascending(s.ps)
    requires s.migs[mi - 1] == RenameMigration(collection, from, to) && !IsReserved(from) && !IsReserved(to)
    requires ModelsAt(s, mi, k).Ok?
    requires forall j: nat | 1 <= j <= k && s.Has(mi, j) && Evs(s, mi, j).Ok? ::
      forall e | e in Evs(s, mi, j).value :: RenameAllowed(collection, to, e)
    ensures ModelsAt(s, mi + 1, k) == Ok(RenamedModels(ModelsAt(s, mi, k).value, collection, from, to))
  {
    hide Sound, Implements, ModelsAt, Evs, Translated, RenameAllowed;
    var sim := RenameSimulation(collection, from, to);
    RenameSound(collection, from, to);
    MigrationSimulates(sim, s, mi, k);
    var before, after := ModelsAt(s, mi, k).value, ModelsAt(s, mi + 1, k).value;
    assert forall f | f in before :: sim.related(Now(s, k), f, before[f], after[f]);
    assert after == RenamedModels(before, collection, from, to);
  }

  // ---------------------------------------------------------------- removing

  function Minus<V>(m: map<Field, V>, fields: seq<Field>): map<Field, V> { m - (set f | f in fields) }

  /** `list.remove` for each of the fields. */
  function RemoveEach(list: seq<Field>, fields: seq<Field>): (r: seq<Field>)
    ensures forall f | f !in fields :: f in r <==> f in list
    decreases |fields|
  {
    if fields == [] then list else RemoveEach(RemoveFirst(list, fields[0]), fields[1..])
  }

  function TrimmedEvent(e: Event, fields: seq<Field>): Event {
    match e
    case Create(f, data) => Create(f, Minus(data, fields))
    case Update(f, data) => Update(f, Minus(data, fields))
    case DeleteFields(f, list) => DeleteFields(f, RemoveEach(list, fields))
    case ListUpdate(f, add, remove) => ListUpdate(f, Minus(add, fields), Minus(remove, fields))
    case _ => e
  }

  /** Each of the fields goes from the list, once. */
  lemma {:induction false} RemoveEachMeans(list: seq<Field>, fields: seq<Field>)
    ensures multiset(RemoveEach(list, fields)) == multiset(list) - multiset(fields)
    decreases |fields|
  {
    if fields != [] {
      assert fields == [fields[0]] + fields[1..];
      RemoveFirstMeans(list, fields[0]);
      RemoveEachMeans(RemoveFirst(list, fields[0]), fields[1..]);
    }
  }

  /** `remove_fields`. */
  method RemoveFields<V>(m: map<Field, V>, fields: seq<Field>) returns (r: map<Field, V>)
    ensures r == Minus(m, fields)
  {
    r := m;
    for i := 0 to |fields|
      invariant r == Minus(m, fields[..i])
    {
      if fields[i] in r {
        r := map f | f in r && f != fields[i] :: r[f];
      }
    }
    assert fields[..|fields|] == fields;
  }

  /** `RemoveFieldsMigration.migrate_event`. */
  method TrimEvent(removals: map<Collection, seq<Field>>, e: Event) returns (r: Option<seq<Event>>)
    ensures r == if e.fqid.collection !in removals then None
      else Some([TrimmedEvent(e, removals[e.fqid.collection])])
  {
    if e.fqid.collection !in removals {
      return None;
    }
    var fields := removals[e.fqid.collection];
    match e {
      case Create(f, data) =>
        var rest := RemoveFields(data, fields);
        r := Some([Create(f, rest)]);
      case Update(f, data) =>
        var rest := RemoveFields(data, fields);
        r := Some([Update(f, rest)]);
      case DeleteFields(f, list) =>
        var rest := list;
        for i := 0 to |fields|
          invariant RemoveEach(rest, fields[i..]) == RemoveEach(list, fields)
        {
          rest := RemoveFirst(rest, fields[i]);
        }
        r := Some([DeleteFields(f, rest)]);
      case ListUpdate(f, add, remove) =>
        var restAdd := RemoveFields(add, fields);
        var restRemove := RemoveFields(remove, fields);
        r := Some([ListUpdate(f, restAdd, restRemove)]);
      case Delete(_) => r := Some([e]);
      case Restore(_) => r := Some([e]);
    }
  }

  function RemoveMigration(removals: map<Collection, seq<Field>>): EventMigration {
    EventMigration(
      (ctx: Context, e: Event, src: Models, dst: Models) =>
        if e.fqid.collection !in removals then Ok(None)
        else Ok(Some([TrimmedEvent(e, removals[e.fqid.collection])])),
      NoExtra())
  }

  predicate ListsNonEmpty(updates: ListUpdates, fields: seq<Field>) {
    forall f | f in updates && f !in fields :: updates[f] != []
  }

  predicate RemoveAllowed(removals: map<Collection, seq<Field>>, e: Event) {
    && !IsNoop(e)
    && (e.ListUpdate? && e.fqid.collection in removals ==>
          && ListsNonEmpty(e.add, removals[e.fqid.collection])
          && ListsNonEmpty(e.remove, removals[e.fqid.collection]))
  }

  /** The same deletion flag, the same fields but for the removed ones, and no later meta position. */
  predicate TrimmedRow(fields: seq<Field>, now: Position, x: ModelRow, y: ModelRow) {
    && y.deleted == x.deleted && Timeless(y) == Minus(Timeless(x), fields)
    && META_POSITION in x.data && META_POSITION in y.data
    && x.data[META_POSITION].Int? && y.data[META_POSITION].Int?
    && y.data[META_POSITION].n <= x.data[META_POSITION].n <= now
  }

  predicate RemoveRelated(
    removals: map<Collection, seq<Field>>, now: Position, f: Fqid, x: ModelRow, y: ModelRow)
  {
    if f.collection in removals then TrimmedRow(removals[f.collection], now, x, y) else y == x
  }

  ghost function RemoveSimulation(removals: map<Collection, seq<Field>>): Simulation {
    Simulation(
      (e: Event) => if e.fqid.collection in removals then TrimmedEvent(e, removals[e.fqid.collection]) else e,
      (now: Position, f: Fqid, x: ModelRow, y: ModelRow) => RemoveRelated(removals, now, f, x, y),
      (e: Event) => RemoveAllowed(removals, e))
  }

  lemma TrimmedValue(data: Model, add: ListUpdates, remove: ListUpdates, fields: seq<Field>, f: Field)
    requires f in Touched(data, add, remove) && f !in fields
    ensures f in Touched(data, Minus(add, fields), Minus(remove, fields))
    ensures ListValue(data, Minus(add, fields), Minus(remove, fields), f) == ListValue(data, add, remove, f)
  {
    hide Iterated, Without;
  }

  lemma TrimmedLists(data: Model, data': Model, add: ListUpdates, remove: ListUpdates, fields: seq<Field>)
    requires Applied(data, add, remove).Ok?
    requires forall f | f !in fields :: (f in data <==> f in data') && (f in data ==> data'[f] == data[f])
    ensures Applied(data', Minus(add, fields), Minus(remove, fields))
      == Ok(Minus(Applied(data, add, remove).value, fields))
  {
    var add', remove' := Minus(add, fields), Minus(remove, fields);
    var trimmed := Minus(Applied(data, add, remove).value, fields);
    AppliedDependsOnNamedFields(data, data', add', remove');
    forall f | f in trimmed
      ensures trimmed[f].List? && ListValue(data, add', remove', f) == Some(trimmed[f].items)
    {
      assert trimmed[f] == List(ListValue(data, add, remove, f).value);
      TrimmedValue(data, add, remove, fields, f);
    }
    assert trimmed.Keys == Touched(data, add', remove');
    AppliedIs(data, add', remove', trimmed);
  }

  predicate UnreservedFields(fields: seq<Field>) { forall f | f in fields :: !IsReserved(f) }

  lemma MinusUnion<V>(m: map<Field, V>, n: map<Field, V>, fields: seq<Field>)
    ensures Minus(m, fields) + Minus(n, fields) == Minus(m + n, fields)
    ensures Minus(n, fields) == map[] ==> Minus(m + n, fields) == Minus(m, fields)
  {}

  lemma MinusPut<V>(m: map<Field, V>, key: Field, value: V, fields: seq<Field>)
    requires key !in fields
    ensures Minus(m, fields)[key := value] == Minus(m[key := value], fields)
  {}

  lemma MinusList<V>(m: map<Field, V>, list: seq<Field>, fields: seq<Field>)
    ensures Minus(m, fields) - (set f | f in RemoveEach(list, fields)) == Minus(m - (set f | f in list), fields)
  {}

  /** An update trimmed to nothing touched no field that is kept. */
  lemma TrimmedToNothing(x: Model, add: ListUpdates, remove: ListUpdates, fields: seq<Field>)
    requires Applied(x, add, remove).Ok? && ListsNonEmpty(add, fields) && ListsNonEmpty(remove, fields)
    requires AllEmpty(Minus(add, fields)) && AllEmpty(Minus(remove, fields))
    ensures Minus(Applied(x, add, remove).value, fields) == map[]
  {
    forall f | f in Touched(x, add, remove)
      ensures f in fields
    {
      assert f in add && f !in fields ==> f in Minus(add, fields);
      assert f in remove && f !in fields ==> f in Minus(remove, fields);
    }
    assert Applied(x, add, remove).value.Keys == Touched(x, add, remove);
  }

  /** On the visible fields the trimmed event does what the event does, or nothing if it is empty. */
  lemma TrimmedTimelessStep(e: Event, x: Model, y: Model, fields: seq<Field>)
    requires UnreservedFields(fields) && TimelessStep(x, e).Ok? && (!e.Create? ==> y == Minus(x, fields))
    requires e.ListUpdate? ==> ListsNonEmpty(e.add, fields) && ListsNonEmpty(e.remove, fields)
    ensures TimelessStep(y, TrimmedEvent(e, fields)) == Ok(Minus(TimelessStep(x, e).value, fields))
    ensures IsNoop(TrimmedEvent(e, fields)) ==> y == Minus(TimelessStep(x, e).value, fields)
  {
    hide Minus, Applied, ListsNonEmpty, AllEmpty, RemoveEach;
    MetaFieldsAreReserved();
    match e
    case ListUpdate(_, add, remove) =>
      var modified := Applied(x, add, remove).value;
      KeptFields(x, fields);
      TrimmedLists(x, y, add, remove, fields);
      MinusUnion(x, modified, fields);
      if IsNoop(TrimmedEvent(e, fields)) {
        TrimmedToNothing(x, add, remove, fields);
      }
    case Update(_, data) =>
      MinusUnion(x, data, fields);
    case DeleteFields(_, list) =>
      MinusList(x, list, fields);
      if RemoveEach(list, fields) == [] {
        assert Minus(x, fields) - (set f: Field | f in []) == Minus(x, fields);
        assert (set f | f in RemoveEach(list, fields)) == (set f: Field | f in []);
      }
    case Create(_, data) => MinusPut(data, META_DELETED, Bool(false), fields);
    case Delete(_) => MinusPut(x, META_DELETED, Bool(true), fields);
    case Restore(_) => MinusPut(x, META_DELETED, Bool(false), fields);
  }

  lemma KeptFields(x: Model, fields: seq<Field>)
    ensures forall f | f !in fields :: (f in x <==> f in Minus(x, fields)) && (f in x ==> Minus(x, fields)[f] == x[f])
  {}

  lemma TrimOwnStep(e: Event, a: Option<ModelRow>, b: Option<ModelRow>, fields: seq<Field>, pos: Position)
    requires UnreservedFields(fields) && Step(a, e, pos).Ok?
    requires if a.None? then b.None? else b.Some? && TrimmedRow(fields, pos, a.value, b.value)
    requires e.ListUpdate? ==> ListsNonEmpty(e.add, fields) && ListsNonEmpty(e.remove, fields)
    ensures var t, x := TrimmedEvent(e, fields), Step(a, e, pos).value;
      && (IsNoop(t) ==> b.Some? && TrimmedRow(fields, pos, x, b.value))
      && (!IsNoop(t) ==> Step(b, t, pos).Ok? && TrimmedRow(fields, pos, x, Step(b, t, pos).value))
  {
    hide TimelessStep, Timeless;
    var t := TrimmedEvent(e, fields);
    assert t.WellFormed();
    StepIsTimeless(a, e, pos);
    StepIsTimeless(b, t, pos);
    var x := if a.None? then map[] else Timeless(a.value);
    var y := if b.None? then map[] else Timeless(b.value);
    TrimmedTimelessStep(e, x, y, fields);
  }

  lemma RemoveSound(removals: map<Collection, seq<Field>>)
    requires forall c | c in removals :: UnreservedFields(removals[c])
    ensures Sound(RemoveSimulation(removals))
    ensures Implements(RemoveMigration(removals), RemoveSimulation(removals))
  {
    hide Step, IsNoop, TrimmedEvent, TrimmedRow, ListsNonEmpty, UnreservedFields;
    var sim := RemoveSimulation(removals);
    forall e, a, b, pos | sim.allowed(e) && Step(a, e, pos).Ok? && RowsRelated(sim, pos, e.fqid, a, b)
      ensures StepRelated(sim, e, a, b, pos)
    {
      if e.fqid.collection in removals {
        TrimOwnStep(e, a, b, removals[e.fqid.collection], pos);
        TrimmedFqid(e, removals[e.fqid.collection]);
      }
    }
    forall now, later, f, a, b | now <= later && sim.related(now, f, a, b)
      ensures sim.related(later, f, a, b)
    {
      if f.collection in removals {
        TrimmedLater(removals[f.collection], now, later, a, b);
      }
    }
  }

  lemma TrimmedFqid(e: Event, fields: seq<Field>)
    ensures TrimmedEvent(e, fields).fqid == e.fqid
  {}

  lemma TrimmedLater(fields: seq<Field>, now: Position, later: Position, x: ModelRow, y: ModelRow)
    requires now <= later && TrimmedRow(fields, now, x, y)
    ensures TrimmedRow(fields, later, x, y)
  {}

  /**
   * Removing fields commutes with the replay at every position, as far as readers can see it; the
   * meta position may only fall behind, where an event lost all its fields.
   */
  lemma RemoveCommutes(removals: map<Collection, seq<Field>>, s: Source, mi: int, k: nat)
    requires s.Has(mi, k) && s.Has(mi + 1, k) && Ascending(s.ps)
    requires s.migs[mi - 1] == RemoveMigration(removals)
    requires forall c | c in removals :: UnreservedFields(removals[c])
    requires ModelsAt(s, mi, k).Ok?
    requires forall j: nat | 1 <= j <= k && s.Has(mi, j) && Evs(s, mi, j).Ok? ::
      forall e | e in Evs(s, mi, j).value :: RemoveAllowed(removals, e)
    ensures ModelsAt(s, mi + 1, k).Ok?
    ensures var before, after := ModelsAt(s, mi, k).value, ModelsAt(s, mi + 1, k).value;
      && after.Keys == before.Keys
      && forall f | f in before :: RemoveRelated(removals, Now(s, k), f, before[f], after[f])
  {
    hide Sound, Implements, ModelsAt, Evs, Translated, RemoveAllowed, RemoveRelated;
    var sim := RemoveSimulation(removals);
    RemoveSound(removals);
    MigrationSimulates(sim, s, mi, k);
    var before, after := ModelsAt(s, mi, k).value, ModelsAt(s, mi + 1, k).value;
    assert forall f | f in before :: sim.related(Now(s, k), f, before[f], after[f]);
  }
}
