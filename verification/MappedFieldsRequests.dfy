/** Which fields a read request asks for, per model, and whether whole models have to be selected. */
module MappedFieldsRequests {
  import opened Types

  const MAX_UNIQUE_FIELDS_PER_QUERY := 1000

  datatype MappedFields = MappedFields(perFqid: map<Fqid, seq<Field>>, uniqueFields: seq<Field>, needsWholeModel: bool)

  function FieldsOf(perFqid: map<Fqid, seq<Field>>, f: Fqid): seq<Field> { if f in perFqid then perFqid[f] else [] }

  predicate Has(perFqid: map<Fqid, seq<Field>>, f: Fqid, field: Field) { field in FieldsOf(perFqid, f) }

  /** `per_fqid[f].extend(more)`. */
  lemma Extended(perFqid: map<Fqid, seq<Field>>, f: Fqid, more: seq<Field>)
    ensures forall g, field :: Has(perFqid[f := FieldsOf(perFqid, f) + more], g, field) <==>
      Has(perFqid, g, field) || (g == f && field in more)
  {
    var after := perFqid[f := FieldsOf(perFqid, f) + more];
    forall g, field
      ensures Has(after, g, field) <==> Has(perFqid, g, field) || (g == f && field in more)
    {
      assert g != f ==> FieldsOf(after, g) == FieldsOf(perFqid, g);
    }
  }

  /** `post_init`. */
  function PostInit(perFqid: map<Fqid, seq<Field>>, uniqueFields: seq<Field>): MappedFields {
    MappedFields(perFqid, uniqueFields,
      |uniqueFields| == 0 || (exists f | f in perFqid :: |perFqid[f]| == 0)
      || |uniqueFields| > MAX_UNIQUE_FIELDS_PER_QUERY)
  }

  /** The fields a request asks for on a model, as a set; the empty set stands for all fields. */
  datatype GetManyRequest =
    | Parts(parts: seq<GetManyRequestPart>, mappedFields: seq<Field>)
    | Fqfields(fqfields: seq<(Fqid, Field)>)

  datatype GetManyRequestPart = GetManyRequestPart(collection: Collection, ids: seq<nat>, mappedFields: seq<Field>)

  predicate PartNames(part: GetManyRequestPart, f: Fqid) { part.collection == f.collection && f.id in part.ids }

  ghost predicate Names(request: GetManyRequest, f: Fqid) {
    match request
    case Parts(parts, _) => exists part | part in parts :: PartNames(part, f)
    case Fqfields(fqfields) => exists x | x in fqfields :: x.0 == f
  }

  ghost predicate AsksFor(request: GetManyRequest, f: Fqid, field: Field) {
    match request
    case Parts(parts, mapped) =>
      exists part | part in parts :: PartNames(part, f) && (field in part.mappedFields || field in mapped)
    case Fqfields(fqfields) => (f, field) in fqfields
  }

  /** Every field asked for on some model is selected, unless whole models are. */
  ghost predicate Covered(m: MappedFields) {
    && (m.needsWholeModel <==> PostInit(m.perFqid, m.uniqueFields).needsWholeModel)
    && forall f, field | Has(m.perFqid, f, field) :: field in m.uniqueFields
  }

  ghost predicate EachOnce(list: seq<Field>) { forall i, j | 0 <= i < j < |list| :: list[i] != list[j] }

  /** `list(set(...))`. */
  method Distinct(fields: set<Field>) returns (list: seq<Field>)
    ensures forall field :: field in list <==> field in fields
    ensures EachOnce(list)
  {
    list := [];
    var todo := fields;
    while todo != {}
      invariant todo <= fields && EachOnce(list)
      invariant forall field :: field in list <==> field in fields && field !in todo
      decreases |todo|
    {
      var field := Pick(todo);
      todo := todo - {field};
      list := list + [field];
    }
  }

  /** `GetRequest.build_mapped_fields`. */
  method BuildForGet(f: Fqid, mapped: seq<Field>) returns (m: MappedFields)
    ensures Covered(m) && m.perFqid.Keys == {f}
    ensures forall field :: Has(m.perFqid, f, field) <==> field in mapped
    ensures EachOnce(m.perFqid[f]) && m.uniqueFields == m.perFqid[f]
    ensures m.needsWholeModel <==> mapped == [] || |m.uniqueFields| > MAX_UNIQUE_FIELDS_PER_QUERY
  {
    var list := Distinct(set field | field in mapped);
    assert mapped != [] ==> mapped[0] in list;
    assert list != [] ==> list[0] in list && list[0] in mapped;
    m := PostInit(map[f := list], list);
  }

  /** `GetManyRequest.build_mapped_fields`. */
  method BuildForGetMany(request: GetManyRequest) returns (m: MappedFields)
    ensures Covered(m)
    ensures forall f :: f in m.perFqid <==> Names(request, f)
    ensures forall f, field :: Has(m.perFqid, f, field) <==> AsksFor(request, f, field)
    ensures request.Fqfields? ==> forall x | x in request.fqfields :: x.0 in m.perFqid && x.1 in m.perFqid[x.0]
    ensures request.Parts? ==> forall part, id | part in request.parts && id in part.ids ::
      var f := Fqid(part.collection, id);
      && f in m.perFqid && (forall field | field in part.mappedFields :: field in m.perFqid[f])
      && (forall field | field in request.mappedFields :: field in m.perFqid[f])
    ensures EachOnce(m.uniqueFields)
    ensures m.needsWholeModel <==>
      || |m.uniqueFields| == 0 || |m.uniqueFields| > MAX_UNIQUE_FIELDS_PER_QUERY
      || exists f | f in m.perFqid :: m.perFqid[f] == []
  {
    hide Names, AsksFor, Has;
    var perFqid, unique;
    match request {
      case Parts(parts, mapped) => perFqid, unique := GatherParts(parts, mapped);
      case Fqfields(fqfields) => perFqid, unique := GatherFqfields(fqfields);
    }
    var list := Distinct(unique);
    AllAskedFor(request, perFqid);
    m := PostInit(perFqid, list);
  }

  lemma AllAskedFor(request: GetManyRequest, perFqid: map<Fqid, seq<Field>>)
    requires forall f :: f in perFqid <==> Names(request, f)
    requires forall f, field :: Has(perFqid, f, field) <==> AsksFor(request, f, field)
    ensures request.Fqfields? ==> forall x | x in request.fqfields :: x.0 in perFqid && x.1 in perFqid[x.0]
    ensures request.Parts? ==> forall part, id | part in request.parts && id in part.ids ::
      var f := Fqid(part.collection, id);
      && f in perFqid && (forall field | field in part.mappedFields :: field in perFqid[f])
      && (forall field | field in request.mappedFields :: field in perFqid[f])
  {
    hide AsksFor, Names;
    if request.Fqfields? {
      forall x | x in request.fqfields
        ensures x.0 in perFqid && x.1 in perFqid[x.0]
      {
        FqfieldAsksFor(request, x);
        assert Has(perFqid, x.0, x.1);
      }
    } else {
      forall part, id | part in request.parts && id in part.ids
        ensures Fqid(part.collection, id) in perFqid
        ensures forall field | field in part.mappedFields || field in request.mappedFields ::
          field in perFqid[Fqid(part.collection, id)]
      {
        var f := Fqid(part.collection, id);
        PartAsksFor(request, part, f);
        forall field | field in part.mappedFields || field in request.mappedFields
          ensures field in perFqid[f]
        {
          assert Has(perFqid, f, field);
        }
      }
    }
  }

  lemma FqfieldAsksFor(request: GetManyRequest, x: (Fqid, Field))
    requires request.Fqfields? && x in request.fqfields
    ensures Names(request, x.0) && AsksFor(request, x.0, x.1)
  {
    assert x == (x.0, x.1);
  }

  lemma PartAsksFor(request: GetManyRequest, part: GetManyRequestPart, f: Fqid)
    requires request.Parts? && part in request.parts && part.collection == f.collection && f.id in part.ids
    ensures Names(request, f)
    ensures forall field | field in part.mappedFields || field in request.mappedFields :: AsksFor(request, f, field)
  {
    assert PartNames(part, f);
  }

  method GatherParts(parts: seq<GetManyRequestPart>, mapped: seq<Field>)
    returns (perFqid: map<Fqid, seq<Field>>, unique: set<Field>)
    ensures forall f :: f in perFqid <==> Names(Parts(parts, mapped), f)
    ensures forall f, field :: Has(perFqid, f, field) <==> AsksFor(Parts(parts, mapped), f, field)
    ensures forall f, field | Has(perFqid, f, field) :: field in unique
  {
    hide Names, AsksFor, PartNames, Has;
    perFqid, unique := map[], set field | field in mapped;
    NothingAsked(parts, mapped, []);
    for i := 0 to |parts|
      invariant forall f :: f in perFqid <==> Names(Parts(parts[..i], mapped), f)
      invariant forall f, field :: Has(perFqid, f, field) <==> AsksFor(Parts(parts[..i], mapped), f, field)
      invariant forall f, field | Has(perFqid, f, field) :: field in unique
      invariant forall field | field in mapped :: field in unique
    {
      OnePartMore(parts, mapped, i);
      unique := unique + set field | field in parts[i].mappedFields;
      perFqid := ExtendPart(perFqid, parts[i], mapped);
    }
    assert parts[..|parts|] == parts;
  }

  method GatherFqfields(fqfields: seq<(Fqid, Field)>) returns (perFqid: map<Fqid, seq<Field>>, unique: set<Field>)
    ensures forall f :: f in perFqid <==> Names(Fqfields(fqfields), f)
    ensures forall f, field :: Has(perFqid, f, field) <==> AsksFor(Fqfields(fqfields), f, field)
    ensures forall f, field | Has(perFqid, f, field) :: field in unique
  {
    hide Names, AsksFor, Has;
    perFqid, unique := map[], {};
    NothingAsked([], [], fqfields);
    for i := 0 to |fqfields|
      invariant forall f :: f in perFqid <==> Names(Fqfields(fqfields[..i]), f)
      invariant forall f, field :: Has(perFqid, f, field) <==> AsksFor(Fqfields(fqfields[..i]), f, field)
      invariant forall f, field | Has(perFqid, f, field) :: field in unique
    {
      OneFqfieldMore(fqfields, i);
      var f, field := fqfields[i].0, fqfields[i].1;
      ghost var before := perFqid;
      Extended(perFqid, f, [field]);
      perFqid := perFqid[f := FieldsOf(perFqid, f) + [field]];
      unique := unique + {field};
      forall g, x
        ensures Has(perFqid, g, x) <==> Has(before, g, x) || (g, x) == fqfields[i]
        ensures Has(perFqid, g, x) ==> x in unique
      {
        assert x in [field] <==> x == field;
      }
    }
    assert fqfields[..|fqfields|] == fqfields;
  }

  lemma NothingAsked(parts: seq<GetManyRequestPart>, mapped: seq<Field>, fqfields: seq<(Fqid, Field)>)
    ensures forall f :: !Names(Parts(parts[..0], mapped), f) && !Names(Fqfields(fqfields[..0]), f)
    ensures forall f, field ::
      !AsksFor(Parts(parts[..0], mapped), f, field) && !AsksFor(Fqfields(fqfields[..0]), f, field)
    ensures forall f, field :: !Has(map[], f, field)
  {}

  lemma OneFqfieldMore(fqfields: seq<(Fqid, Field)>, i: nat)
    requires i < |fqfields|
    ensures forall f ::
      Names(Fqfields(fqfields[..i + 1]), f) <==> Names(Fqfields(fqfields[..i]), f) || f == fqfields[i].0
    ensures forall f, field :: AsksFor(Fqfields(fqfields[..i + 1]), f, field) <==>
      AsksFor(Fqfields(fqfields[..i]), f, field) || (f, field) == fqfields[i]
  {
    var before, after := fqfields[..i], fqfields[..i + 1];
    assert forall x :: x in after <==> x in before || x == fqfields[i];
    assert fqfields[i] in after;
  }

  lemma OnePartMore(parts: seq<GetManyRequestPart>, mapped: seq<Field>, i: nat)
    requires i < |parts|
    ensures forall f :: Names(Parts(parts[..i + 1], mapped), f) <==>
      Names(Parts(parts[..i], mapped), f) || PartNames(parts[i], f)
    ensures forall f, field :: AsksFor(Parts(parts[..i + 1], mapped), f, field) <==>
      AsksFor(Parts(parts[..i], mapped), f, field)
      || (PartNames(parts[i], f) && (field in parts[i].mappedFields || field in mapped))
  {
    hide PartNames;
    assert parts[..i + 1] == parts[..i] + [parts[i]];
    assert forall part :: part in parts[..i + 1] <==> part in parts[..i] || part == parts[i];
  }

  /** The loop over the ids of a part. */
  method ExtendPart(perFqid: map<Fqid, seq<Field>>, part: GetManyRequestPart, mapped: seq<Field>)
    returns (r: map<Fqid, seq<Field>>)
    ensures forall f :: f in r <==> f in perFqid || PartNames(part, f)
    ensures forall f, field :: Has(r, f, field) <==>
      Has(perFqid, f, field) || (PartNames(part, f) && (field in part.mappedFields || field in mapped))
  {
    hide Has, FieldsOf;
    r := perFqid;
    for i := 0 to |part.ids|
      invariant forall f :: f in r <==> f in perFqid || (part.collection == f.collection && f.id in part.ids[..i])
      invariant forall f, field :: Has(r, f, field) <==>
        Has(perFqid, f, field)
        || (part.collection == f.collection && f.id in part.ids[..i] && (field in part.mappedFields || field in mapped))
    {
      var f := Fqid(part.collection, part.ids[i]);
      assert part.ids[..i + 1] == part.ids[..i] + [part.ids[i]];
      Extended(r, f, part.mappedFields + mapped);
      r := r[f := FieldsOf(r, f) + (part.mappedFields + mapped)];
    }
    assert part.ids[..|part.ids|] == part.ids;
  }
}
