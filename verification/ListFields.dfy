/** List updates: what `apply_fields` computes for the writer, the replay of events and the keyframes. */
module ListFields {
  import opened Types

  /** The elements of `xs` that are not in `ys`, in order. */
  function Without(xs: seq<Json>, ys: seq<Json>): (r: seq<Json>)
    ensures forall x :: x in r <==> x in xs && x !in ys
  {
    if xs == [] then [] else (if xs[0] in ys then [] else [xs[0]]) + Without(xs[1..], ys)
  }

  /** It goes through the elements one after the other, so what stays keeps its order. */
  lemma {:induction false} WithoutInOrder(xs: seq<Json>, zs: seq<Json>, ys: seq<Json>)
    ensures Without(xs + zs, ys) == Without(xs, ys) + Without(zs, ys)
  {
    if xs == [] {
      assert xs + zs == zs;
    } else {
      assert (xs + zs)[0] == xs[0] && (xs + zs)[1..] == xs[1..] + zs;
      WithoutInOrder(xs[1..], zs, ys);
    }
  }

  lemma WithoutOne(x: Json, ys: seq<Json>)
    ensures Without([x], ys) == if x in ys then [] else [x]
  {
    assert [x][1..] == [];
  }

  /** What a Python loop over a JSON value yields; `None` where it raises a TypeError. */
  function Iterated(value: Json): Option<seq<Json>> {
    match value
    case List(items) => Some(items)
    case Str(s) => Some(seq(|s|, i requires 0 <= i < |s| => Str([s[i]])))
    case _ => None
  }

  /** The list after additions: `model.get(field, []) + [...]` needs a proper list. */
  function AddedValue(model: Model, add: ListUpdates, field: Field): Option<seq<Json>>
    requires field in add
  {
    if field in model && !model[field].List? then None
    else
      var dbList := if field in model then model[field].items else [];
      Some(dbList + Without(add[field], dbList))
  }

  function ListValue(model: Model, add: ListUpdates, remove: ListUpdates, field: Field): Option<seq<Json>>
    requires field in Touched(model, add, remove)
  {
    var base := if field in add then AddedValue(model, add, field) else Iterated(model[field]);
    if base.Some? && field in remove && field in model then Some(Without(base.value, remove[field])) else base
  }

  /** The fields a list update writes: removals from an absent field are skipped. */
  function Touched(model: Model, add: ListUpdates, remove: ListUpdates): set<Field> {
    add.Keys + remove.Keys * model.Keys
  }

  function Applied(model: Model, add: ListUpdates, remove: ListUpdates): Result<Model> {
    var touched := Touched(model, add, remove);
    if forall f | f in touched :: ListValue(model, add, remove, f).Some? then
      Ok(map f | f in touched :: List(ListValue(model, add, remove, f).value))
    else
      Err(NotIterable)
  }

  /** `Applied` is determined by the value of each touched field. */
  lemma AppliedIs(model: Model, add: ListUpdates, remove: ListUpdates, modified: Model)
    requires modified.Keys == Touched(model, add, remove)
    requires forall f | f in modified ::
      modified[f].List? && ListValue(model, add, remove, f) == Some(modified[f].items)
    ensures Applied(model, add, remove) == Ok(modified)
  {
    var r := Applied(model, add, remove);
    assert r.Ok?;
    assert r.value.Keys == modified.Keys;
    forall f | f in modified
      ensures r.value[f] == modified[f]
    {
      assert ListValue(model, add, remove, f) == Some(modified[f].items);
    }
    assert r.value == modified;
  }

  /** The first loop of `apply_fields`: additions. */
  method AddElements(model: Model, add: ListUpdates) returns (r: Result<Model>)
    ensures r.Ok? ==> r.value.Keys == add.Keys
    ensures r.Ok? ==> forall f | f in add :: r.value[f].List? && AddedValue(model, add, f) == Some(r.value[f].items)
    ensures r.Err? ==> r.error == NotIterable && exists f | f in add :: AddedValue(model, add, f).None?
  {
    var modified: Model := map[];
    var todo := add.Keys;
    while todo != {}
      invariant todo <= add.Keys
      invariant forall f :: f in modified <==> f in add && f !in todo
      invariant forall f | f in modified :: modified[f].List? && AddedValue(model, add, f) == Some(modified[f].items)
      decreases |todo|
    {
      var field := Pick(todo);
      todo := todo - {field};
      if field in model && !model[field].List? {
        assert AddedValue(model, add, field).None?;
        return Err(NotIterable);
      }
      var dbList := if field in model then model[field].items else [];
      modified := modified[field := List(dbList + Without(add[field], dbList))];
    }
    r := Ok(modified);
  }

  method ApplyFields(model: Model, add: ListUpdates, remove: ListUpdates) returns (r: Result<Model>)
    ensures r == Applied(model, add, remove)
  {
    hide Without, Applied, AddedValue, Iterated, RemovedBut;
    var added := AddElements(model, add);
    if added.Err? {
      AddFails(model, add, remove);
      return added;
    }
    var modified := added.value;
    var todo := remove.Keys;
    NothingRemoved(model, add, remove, modified);
    while todo != {}
      invariant todo <= remove.Keys && RemovedBut(model, add, remove, modified, todo)
      decreases |todo|
    {
      var field := Pick(todo);
      RemovedNext(model, add, remove, modified, todo, field);
      todo := todo - {field};
      if field in model {
        var dbList := if field in modified then modified[field] else model[field];
        var items := Iterated(dbList);
        if items.None? {
          return Err(NotIterable);
        }
        modified := modified[field := List(Without(items.value, remove[field]))];
      }
    }
    AllRemoved(model, add, remove, modified);
    r := Ok(modified);
  }

  /** The second loop has dealt with all removals but these. */
  ghost predicate RemovedBut(
    model: Model, add: ListUpdates, remove: ListUpdates, modified: Model, todo: set<Field>)
  {
    && (forall f :: f in modified <==> f in add || (f in remove && f !in todo && f in model))
    && (forall f | f in modified && f !in todo ::
          modified[f].List? && ListValue(model, add, remove, f) == Some(modified[f].items))
    && (forall f | f in modified && f in todo ::
          modified[f].List? && AddedValue(model, add, f) == Some(modified[f].items))
  }

  lemma NothingRemoved(model: Model, add: ListUpdates, remove: ListUpdates, modified: Model)
    requires modified.Keys == add.Keys
    requires forall f | f in add :: modified[f].List? && AddedValue(model, add, f) == Some(modified[f].items)
    ensures RemovedBut(model, add, remove, modified, remove.Keys)
  {
    hide AddedValue, Iterated;
  }

  lemma RemovedNext(
    model: Model, add: ListUpdates, remove: ListUpdates, modified: Model, todo: set<Field>, field: Field)
    requires RemovedBut(model, add, remove, modified, todo) && field in todo && todo <= remove.Keys
    ensures field !in model ==> RemovedBut(model, add, remove, modified, todo - {field})
    ensures field in model ==>
      match Iterated(if field in modified then modified[field] else model[field])
      case None => Applied(model, add, remove) == Err(NotIterable)
      case Some(items) =>
        var next := modified[field := List(Without(items, remove[field]))];
        RemovedBut(model, add, remove, next, todo - {field})
  {
    hide Without, Applied, AddedValue, Iterated;
    if field in model {
      RemovedValue(model, add, remove, field, if field in modified then modified[field] else model[field]);
    }
  }

  lemma AllRemoved(model: Model, add: ListUpdates, remove: ListUpdates, modified: Model)
    requires RemovedBut(model, add, remove, modified, {})
    ensures Applied(model, add, remove) == Ok(modified)
  {
    hide Applied, ListValue;
    assert modified.Keys == Touched(model, add, remove);
    AppliedIs(model, add, remove, modified);
  }

  lemma AddFails(model: Model, add: ListUpdates, remove: ListUpdates)
    requires exists f | f in add :: AddedValue(model, add, f).None?
    ensures Applied(model, add, remove) == Err(NotIterable)
  {
    var f :| f in add && AddedValue(model, add, f).None?;
    assert ListValue(model, add, remove, f).None?;
  }

  /** A removal works on the list after the additions. */
  lemma RemovedValue(model: Model, add: ListUpdates, remove: ListUpdates, field: Field, dbList: Json)
    requires field in remove && field in model
    requires if field in add then dbList.List? && AddedValue(model, add, field) == Some(dbList.items)
      else dbList == model[field]
    ensures ListValue(model, add, remove, field) ==
      match Iterated(dbList) case None => None case Some(items) => Some(Without(items, remove[field]))
    ensures Iterated(dbList).None? ==> Applied(model, add, remove) == Err(NotIterable)
  {
    if Iterated(dbList).None? {
      assert ListValue(model, add, remove, field).None?;
    }
  }

  /** A list update reads nothing but the fields it names. */
  lemma AppliedDependsOnNamedFields(a: Model, b: Model, add: ListUpdates, remove: ListUpdates)
    requires forall f | f in add.Keys + remove.Keys :: (f in a <==> f in b) && (f in a ==> a[f] == b[f])
    ensures Applied(a, add, remove) == Applied(b, add, remove)
    ensures Touched(a, add, remove) == Touched(b, add, remove)
  {
    assert Touched(a, add, remove) == Touched(b, add, remove);
    assert forall f | f in Touched(a, add, remove) :: ListValue(a, add, remove, f) == ListValue(b, add, remove, f);
    if Applied(a, add, remove).Ok? {
      AppliedIs(b, add, remove, Applied(a, add, remove).value);
    } else {
      var f :| f in Touched(a, add, remove) && ListValue(a, add, remove, f).None?;
      assert ListValue(b, add, remove, f).None?;
    }
  }
  /** The items of a list field; an absent field stands for the empty list. */
  function ItemsOf(model: Model, field: Field): seq<Json> {
    if field in model && model[field].List? then model[field].items else []
  }

  /**
   * On a list or an absent field: the new elements come after the old ones, which stay as they are, and
   * then all elements to be removed go, new ones as well, unless the model did not have the field.
   */
  lemma ListUpdateMeans(model: Model, add: ListUpdates, remove: ListUpdates, field: Field)
    requires field in Touched(model, add, remove) && (field in model ==> model[field].List?)
    ensures ListValue(model, add, remove, field).Some?
    ensures var before, after := ItemsOf(model, field), ListValue(model, add, remove, field).value;
      && (field !in remove || field !in model ==>
            before <= after && after[|before|..] == if field in add then Without(add[field], before) else [])
      && (field in remove && field in model ==>
            after == Without(if field in add then before + Without(add[field], before) else before, remove[field]))
  {
    var before, after := ItemsOf(model, field), ListValue(model, add, remove, field).value;
    if field in add && (field !in remove || field !in model) { assert after == before + Without(add[field], before); }
  }
  /**
   * It fails just where the model holds something else than a list; only a removal alone takes a text
   * as well, for the list of its characters.
   */
  lemma ListUpdateFails(model: Model, add: ListUpdates, remove: ListUpdates)
    ensures Applied(model, add, remove).Ok? <==>
      && (forall f | f in add && f in model :: model[f].List?)
      && (forall f | f in remove && f !in add && f in model :: model[f].List? || model[f].Str?)
    ensures Applied(model, add, remove).Err? ==> Applied(model, add, remove).error == NotIterable
  {
    forall f | f in Touched(model, add, remove)
      ensures ListValue(model, add, remove, f).Some? <==>
        f !in model || model[f].List? || (f !in add && model[f].Str?)
    {
    }
    assert forall f | f in add || (f in remove && f in model) :: f in Touched(model, add, remove);
  }

  lemma TextUpdateMeans(model: Model, add: ListUpdates, remove: ListUpdates, f: Field)
    requires f in remove && f !in add && f in model && model[f].Str?
    ensures ListValue(model, add, remove, f).Some?
    ensures var text := model[f].s;
      exists characters: seq<Json> ::
        && |characters| == |text| && (forall i | 0 <= i < |text| :: characters[i] == Str([text[i]]))
        && ListValue(model, add, remove, f).value == Without(characters, remove[f])
  {
    var characters := Iterated(model[f]).value;
    assert ListValue(model, add, remove, f).value == Without(characters, remove[f]);
  }
}
