/** What the writer gathers while it walks through the events of a request. */
module Batches {
  import opened Types
  import opened Replay
  import opened DbEvents
  import opened WriteLaws

  datatype Batch = Batch(
    events: seq<DbEvent>,
    models: Fetched,
    maxIds: map<Collection, int>,
    indices: map<CollectionField, seq<nat>>)

  /** The `i`-th of the events modifies the collectionfield, seen from the models before the first one. */
  ghost predicate TouchesIn(table: Models, es: seq<Event>, pos: Position, i: nat, cf: CollectionField) {
    && i < |es| && ReplayEvents(table, es[..i], pos).Ok? && es[i].fqid.collection == cf.collection
    && cf.field in TouchedFields(Lookup(ReplayEvents(table, es[..i], pos).value, es[i].fqid), es[i])
  }

  /** The indices recorded for each collectionfield are those of the events that modify it, each once. */
  ghost predicate IndicesOk(table: Models, pos: Position, b: Batch) {
    && (forall cf, i: nat | TouchesIn(table, StoredEvents(b.events), pos, i, cf) ::
          cf in b.indices && i in b.indices[cf])
    && (forall cf, i | cf in b.indices && i in b.indices[cf] :: TouchesIn(table, StoredEvents(b.events), pos, i, cf))
    && (forall cf | cf in b.indices :: b.indices[cf] != [])
    && (forall cf, i, j | cf in b.indices && 0 <= i < j < |b.indices[cf]| :: b.indices[cf][i] < b.indices[cf][j])
  }

  ghost predicate MaxIdsOk(table: Models, maxIds: map<Collection, int>, now: Models) {
    && (forall f | f in now :: f in table || (f.collection in maxIds && f.id < maxIds[f.collection]))
    && (forall c | c in maxIds :: 1 <= maxIds[c])
  }

  ghost predicate BatchOk(table: Models, scope: set<Fqid>, pos: Position, b: Batch, now: Models) {
    && ReplayEvents(table, StoredEvents(b.events), pos) == Ok(now)
    && Mirrors(b.models, now, scope) && RowsOk(now)
    && table.Keys <= now.Keys && (forall f | f !in scope :: Lookup(now, f) == Lookup(table, f))
    && MaxIdsOk(table, b.maxIds, now) && IndicesOk(table, pos, b)
  }

  function Recorded(indices: map<CollectionField, seq<nat>>, cf: CollectionField): seq<nat> {
    if cf in indices then indices[cf] else []
  }

  /** Appends the index of an event to every collectionfield it modifies. */
  method RecordFields(indices: map<CollectionField, seq<nat>>, collection: Collection, fields: set<Field>, index: nat)
    returns (r: map<CollectionField, seq<nat>>)
    ensures forall cf :: cf in r <==> cf in indices || (cf.collection == collection && cf.field in fields)
    ensures forall cf | cf in r ::
      r[cf] == Recorded(indices, cf) + if cf.collection == collection && cf.field in fields then [index] else []
  {
    r := indices;
    var todo := fields;
    while todo != {}
      invariant todo <= fields
      invariant forall cf :: cf in r <==> cf in indices || (cf.collection == collection && cf.field in fields - todo)
      invariant forall cf | cf in r ::
        r[cf] == Recorded(indices, cf)
          + if cf.collection == collection && cf.field in fields - todo then [index] else []
      decreases |todo|
    {
      var field := Pick(todo);
      todo := todo - {field};
      var cf := CollectionField(collection, field);
      r := r[cf := Recorded(r, cf) + [index]];
    }
  }

  /** The part of the inner loop for one event. */
  method AddEvent(b: Batch, e: DbEvent, pos: Position, ghost table: Models, ghost scope: set<Fqid>, ghost now: Models)
    returns (b': Batch)
    requires BatchOk(table, scope, pos, b, now) && e.fqid in scope && Faithful(Lookup(now, e.fqid), e, pos)
    ensures BatchOk(table, scope, pos, b', now[e.fqid := NextRow(Lookup(now, e.fqid), e, pos)])
    ensures b'.events == b.events + [e]
  {
    hide Faithful, Mirrors, IndicesOk, MaxIdsOk, NextRow, WrittenModel, RowsOk, ReplayEvents;
    var indices := RecordFields(b.indices, e.fqid.collection, e.ModifiedFields().Keys, |b.events|);
    var maxIds := b.maxIds;
    if e.DbCreate? {
      var known := if e.fqid.collection in maxIds then maxIds[e.fqid.collection] else 0;
      maxIds := maxIds[e.fqid.collection := if known > e.fqid.id + 1 then known else e.fqid.id + 1];
    }
    var before := if e.fqid in b.models then b.models[e.fqid] else map[];
    b' := Batch(b.events + [e], b.models[e.fqid := WrittenModel(before, e, pos)], maxIds, indices);
    AddedReplay(table, scope, pos, b, now, e);
    AddedIds(table, b.maxIds, maxIds, now, e, pos);
    AddedIndices(table, pos, b, b', now, e);
  }

  lemma AddedReplay(table: Models, scope: set<Fqid>, pos: Position, b: Batch, now: Models, e: DbEvent)
    requires ReplayEvents(table, StoredEvents(b.events), pos) == Ok(now) && Mirrors(b.models, now, scope) && RowsOk(now)
    requires e.fqid in scope && Faithful(Lookup(now, e.fqid), e, pos)
    ensures var now' := now[e.fqid := NextRow(Lookup(now, e.fqid), e, pos)];
      var before := if e.fqid in b.models then b.models[e.fqid] else map[];
      && ReplayEvents(table, StoredEvents(b.events + [e]), pos) == Ok(now')
      && Mirrors(b.models[e.fqid := WrittenModel(before, e, pos)], now', scope) && RowsOk(now')
  {
    hide Faithful, Mirrors, WrittenModel, NextRow, RowOk, ApplyEvent;
    WriteMirrors(b.models, now, scope, e, pos);
    assert StoredEvents(b.events + [e]) == StoredEvents(b.events) + [e.Stored()];
    ReplayConcat(table, StoredEvents(b.events), [e.Stored()], pos);
    ReplayOne(now, e.Stored(), pos);
  }

  lemma AddedIds(
    table: Models, maxIds: map<Collection, int>, maxIds': map<Collection, int>, now: Models, e: DbEvent, pos: Position)
    requires MaxIdsOk(table, maxIds, now) && Faithful(Lookup(now, e.fqid), e, pos)
    requires maxIds'.Keys == maxIds.Keys + if e.DbCreate? then {e.fqid.collection} else {}
    requires forall c | c in maxIds :: maxIds[c] <= maxIds'[c]
    requires e.DbCreate? ==> e.fqid.id < maxIds'[e.fqid.collection] && 1 <= maxIds'[e.fqid.collection]
    ensures MaxIdsOk(table, maxIds', now[e.fqid := NextRow(Lookup(now, e.fqid), e, pos)])
  {
    if !e.DbCreate? {
      assert e.fqid in now;
    }
  }

  lemma AddedIndices(table: Models, pos: Position, b: Batch, b': Batch, now: Models, e: DbEvent)
    requires ReplayEvents(table, StoredEvents(b.events), pos) == Ok(now)
    requires IndicesOk(table, pos, b) && Faithful(Lookup(now, e.fqid), e, pos)
    requires b'.events == b.events + [e]
    requires forall cf :: cf in b'.indices <==>
      cf in b.indices || (cf.collection == e.fqid.collection && cf.field in e.ModifiedFields())
    requires forall cf | cf in b'.indices ::
      b'.indices[cf] == Recorded(b.indices, cf) +
        if cf.collection == e.fqid.collection && cf.field in e.ModifiedFields() then [|b.events|] else []
    ensures IndicesOk(table, pos, b')
  {
    hide ReplayEvents, TouchedFields;
    var es, es', n := StoredEvents(b.events), StoredEvents(b'.events), |b.events|;
    assert es' == es + [e.Stored()];
    StoredFqid(e);
    assert es'[..n] == es;
    forall cf, i: nat
      ensures TouchesIn(table, es', pos, i, cf) <==> if i == n
        then cf.collection == e.fqid.collection && cf.field in e.ModifiedFields() else TouchesIn(table, es, pos, i, cf)
    {
      if i < n {
        assert es'[..i] == es[..i];
      }
    }
    forall cf, i | cf in b'.indices && 0 <= i < |b'.indices[cf]|
      ensures TouchesIn(table, es', pos, b'.indices[cf][i], cf)
      ensures i > 0 ==> b'.indices[cf][i - 1] < b'.indices[cf][i]
    {
      var known := Recorded(b.indices, cf);
      if i < |known| {
        assert TouchesIn(table, es, pos, known[i], cf);
      } else if i > 0 {
        assert TouchesIn(table, es, pos, known[i - 1], cf);
      }
    }
    Increasing(b'.indices);
    forall cf, i: nat | TouchesIn(table, es', pos, i, cf)
      ensures cf in b'.indices && i in b'.indices[cf]
    {
      if i < n {
        assert i in b.indices[cf];
      } else {
        assert b'.indices[cf][|b'.indices[cf]| - 1] == n;
      }
    }
  }

  /** A chain of neighbours. */
  lemma Increasing(indices: map<CollectionField, seq<nat>>)
    requires forall cf, i | cf in indices && 0 < i < |indices[cf]| :: indices[cf][i - 1] < indices[cf][i]
    ensures forall cf, i, j | cf in indices && 0 <= i < j < |indices[cf]| :: indices[cf][i] < indices[cf][j]
  {
    forall cf, i, j | cf in indices && 0 <= i < j < |indices[cf]|
      ensures indices[cf][i] < indices[cf][j]
    {
      IncreasingTo(indices[cf], i, j);
    }
  }

  lemma {:induction false} IncreasingTo(xs: seq<nat>, i: nat, j: nat)
    requires i < j < |xs| && forall k | 0 < k < |xs| :: xs[k - 1] < xs[k]
    ensures xs[i] < xs[j]
    decreases j
  {
    if i < j - 1 { IncreasingTo(xs, i, j - 1); }
    assert xs[j - 1] < xs[j];
  }

  lemma StartBatch(table: Models, scope: set<Fqid>, pos: Position)
    requires RowsOk(table)
    ensures BatchOk(table, scope, pos, Batch([], FetchedModels(table, scope), map[], map[]), table)
  {
    assert FetchedModels(table, scope).Keys == table.Keys * scope;
  }

  lemma NothingReplayed(models: Models, es: seq<DbEvent>, pos: Position)
    ensures ReplayEvents(models, StoredEvents(es[..0]), pos) == Ok(models)
  {}

  lemma FirstFaithful(row: Option<ModelRow>, es: seq<DbEvent>, pos: Position)
    requires es != [] && FaithfulAll(row, es, pos)
    ensures Faithful(row, es[0], pos) && FaithfulAll(Some(NextRow(row, es[0], pos)), es[1..], pos)
  {}

  lemma OneMore(models: Models, now: Models, es: seq<DbEvent>, j: nat, pos: Position)
    requires j < |es| && ReplayEvents(models, StoredEvents(es[..j]), pos) == Ok(now)
    requires Faithful(Lookup(now, es[j].fqid), es[j], pos)
    ensures ReplayEvents(models, StoredEvents(es[..j + 1]), pos)
      == Ok(now[es[j].fqid := NextRow(Lookup(now, es[j].fqid), es[j], pos)])
  {
    hide NextRow, TouchedFields;
    StoredFqid(es[j]);
    assert StoredEvents(es[..j + 1]) == StoredEvents(es[..j]) + [es[j].Stored()];
    ReplayConcat(models, StoredEvents(es[..j]), [es[j].Stored()], pos);
    ReplayOne(now, es[j].Stored(), pos);
  }
}
