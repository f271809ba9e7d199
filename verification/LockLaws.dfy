/** What a lock check may conclude from events and links: that what was read has not changed. */
module LockLaws {
  import opened Types
  import opened ListFields
  import opened Replay
  import opened Tables
  import opened DbEvents
  import opened LockIndex
  import opened Backend

  /** What a reader sees of a field: nothing where the model is deleted or absent. */
  function Visible(models: Models, f: Fqid, field: Field): Option<Json> {
    if f in models && !models[f].deleted && field in models[f].data then Some(models[f].data[field]) else None
  }

  /** What its row holds, deleted or not. */
  function Held(models: Models, f: Fqid, field: Field): Option<Json> {
    if f in models then Get(models[f].data, field) else None
  }

  /** How many of the positions are at most `p`. */
  function CountUpTo(ps: seq<Position>, p: Position): (k: nat)
    ensures k <= |ps|
  {
    if ps == [] || ps[0] > p then 0 else 1 + CountUpTo(ps[1..], p)
  }

  lemma {:induction false} CountSplits(ps: seq<Position>, p: Position)
    requires Ascending(ps)
    ensures forall i | 0 <= i < |ps| :: ps[i] <= p <==> i < CountUpTo(ps, p)
  {
    if ps != [] {
      if ps[0] <= p { CountSplits(ps[1..], p); }
      forall i | 0 < i < |ps|
        ensures ps[i] <= p <==> i < CountUpTo(ps, p)
      {
        assert ps[0] < ps[i];
        assert ps[1..][i - 1] == ps[i];
      }
    }
  }

  /** The models as they were at position `p`. */
  ghost function ModelsUpTo(log: Log, p: Position): Result<Models>
    requires |log.ps| == |log.hist|
  {
    ReplayHistory(log.ps, log.hist, CountUpTo(log.ps, p))
  }

  lemma UntouchedStep(models: Models, e: Event, pos: Position, f: Fqid, field: Field)
    requires ApplyEvent(models, e, pos).Ok? && RowsOk(models) && !IsReserved(field)
    requires e.fqid == f ==> field !in TouchedFields(Lookup(models, f), e)
    ensures Visible(ApplyEvent(models, e, pos).value, f, field) == Visible(models, f, field)
    ensures Held(ApplyEvent(models, e, pos).value, f, field) == Held(models, f, field)
  {
    MetaFieldsAreReserved();
    if e.fqid == f && e.ListUpdate? {
      var data := models[f].data[META_POSITION := Int(pos)];
      assert Applied(data, e.add, e.remove).value.Keys == Touched(data, e.add, e.remove);
      assert forall g | g in e.add.Keys + e.remove.Keys :: g != META_POSITION;
      AppliedDependsOnNamedFields(data, models[f].data, e.add, e.remove);
    }
  }

  ghost predicate Untouched(log: Log, k: nat, w: nat, f: Fqid, field: Field)
    requires k < |log.hist| && w < |log.hist[k]|
  {
    log.hist[k][w].fqid == f ==> !Touches(log, k, w, CollectionField(f.collection, field))
  }

  lemma {:induction false} UntouchedWithin(log: Log, k: nat, w: nat, f: Fqid, field: Field)
    requires k < |log.ps| && k < |log.hist| && w <= |log.hist[k]| && !IsReserved(field)
    requires ModelsBefore(log, k, w).Ok?
    requires forall i: nat | i < w :: Untouched(log, k, i, f, field)
    ensures ReplayHistory(log.ps, log.hist, k).Ok?
    ensures Visible(ModelsBefore(log, k, w).value, f, field)
      == Visible(ReplayHistory(log.ps, log.hist, k).value, f, field)
    ensures Held(ModelsBefore(log, k, w).value, f, field) == Held(ReplayHistory(log.ps, log.hist, k).value, f, field)
    decreases w
  {
    hide ApplyEvent, TouchedFields, Visible, Held, RowOk;
    var start := ReplayHistory(log.ps, log.hist, k).value;
    if w > 0 {
      assert log.hist[k][..w][..w - 1] == log.hist[k][..w - 1];
      UntouchedWithin(log, k, w - 1, f, field);
      HistoryRowsOk(log.ps, log.hist, k);
      ReplayKeepsRowsOk(start, log.hist[k][..w - 1], log.ps[k]);
      assert Untouched(log, k, w - 1, f, field);
      UntouchedStep(ModelsBefore(log, k, w - 1).value, log.hist[k][w - 1], log.ps[k], f, field);
    }
  }

  /** A field that no event touches from the `j`-th to the `k`-th position reads the same. */
  lemma {:induction false} UntouchedAcross(log: Log, j: nat, k: nat, f: Fqid, field: Field)
    requires |log.ps| == |log.hist| && j <= k <= |log.ps| && !IsReserved(field)
    requires ReplayHistory(log.ps, log.hist, k).Ok?
    requires forall i: nat, w: nat | j <= i < k && w < |log.hist[i]| :: Untouched(log, i, w, f, field)
    ensures ReplayHistory(log.ps, log.hist, j).Ok?
    ensures Visible(ReplayHistory(log.ps, log.hist, j).value, f, field)
      == Visible(ReplayHistory(log.ps, log.hist, k).value, f, field)
    ensures Held(ReplayHistory(log.ps, log.hist, j).value, f, field)
      == Held(ReplayHistory(log.ps, log.hist, k).value, f, field)
    decreases k
  {
    hide ReplayEvents, Visible, Held, Untouched;
    if j < k {
      assert log.hist[k - 1][..|log.hist[k - 1]|] == log.hist[k - 1];
      UntouchedWithin(log, k - 1, |log.hist[k - 1]|, f, field);
      UntouchedAcross(log, j, k - 1, f, field);
    }
  }

  lemma {:induction false} OtherFqidWithin(models: Models, es: seq<Event>, pos: Position, f: Fqid)
    requires ReplayEvents(models, es, pos).Ok? && forall e | e in es :: e.fqid != f
    ensures Lookup(ReplayEvents(models, es, pos).value, f) == Lookup(models, f)
    decreases |es|
  {
    hide Step;
    if es != [] { OtherFqidWithin(models, es[..|es| - 1], pos, f); }
  }

  /** A model without any event from the `j`-th to the `k`-th position is the same row. */
  lemma {:induction false} OtherFqidAcross(log: Log, j: nat, k: nat, f: Fqid)
    requires |log.ps| == |log.hist| && j <= k <= |log.ps|
    requires ReplayHistory(log.ps, log.hist, k).Ok?
    requires forall i: nat, w: nat | j <= i < k && w < |log.hist[i]| :: log.hist[i][w].fqid != f
    ensures ReplayHistory(log.ps, log.hist, j).Ok?
    ensures Lookup(ReplayHistory(log.ps, log.hist, j).value, f) == Lookup(ReplayHistory(log.ps, log.hist, k).value, f)
    decreases k
  {
    hide ReplayEvents, Lookup;
    if j < k {
      OtherFqidAcross(log, j, k - 1, f);
      OtherFqidWithin(ReplayHistory(log.ps, log.hist, k - 1).value, log.hist[k - 1], log.ps[k - 1], f);
    }
  }

  // ---------------------------------------------------------------- the three verdicts, on the tables

  ghost predicate FqidBroken(t: EventTable, f: Fqid, p: Position) {
    exists id :: id in t && t[id].event.fqid == f && t[id].position > p
  }

  ghost predicate FqfieldBroken(t: EventTable, links: Links, f: Fqid, field: Field, p: Position) {
    exists id ::
      id in t && t[id].event.fqid == f && t[id].position > p && (id, CollectionField(f.collection, field)) in links
  }

  predicate CollectionFieldBroken(cfs: CollectionFields, cf: CollectionField, p: Position) {
    cf in cfs && cfs[cf] > p
  }

  /** A filtered lock looks at the models the linked events are about, as they are now. */
  ghost predicate FilteredBroken(
    t: EventTable, links: Links, models: Models, cf: CollectionField, p: Position, matches: ModelRow -> bool)
  {
    exists id :: id in t && t[id].position > p && (id, cf) in links
      && t[id].event.fqid in models && matches(models[t[id].event.fqid])
  }

  // ---------------------------------------------------------------- the same, on the history

  ghost predicate TouchedAfter(log: Log, f: Fqid, field: Field, p: Position) {
    exists k: nat, w: nat :: TouchesField(log, k, w, f, field) && log.ps[k] > p
  }

  ghost predicate TouchesField(log: Log, k: nat, w: nat, f: Fqid, field: Field) {
    Touches(log, k, w, CollectionField(f.collection, field)) && log.hist[k][w].fqid == f
  }

  /** Row and history name the same event. */
  lemma RowOf(log: Log, t: EventTable, id: nat, k: nat)
    requires HoldsHistory(t, log.ps, log.hist) && Ascending(log.ps) && id in t
    requires k < |log.ps| && log.ps[k] == t[id].position
    ensures 1 <= t[id].weight <= |log.hist[k]| && t[id].event == log.hist[k][t[id].weight - 1]
  {
    assert Holds(t, log.ps[k], log.hist[k]);
  }

  lemma RowFor(log: Log, t: EventTable, k: nat, w: nat) returns (id: nat)
    requires HoldsHistory(t, log.ps, log.hist) && k < |log.ps| && w < |log.hist[k]|
    ensures IsRow(t, id, log.ps[k], w + 1) && t[id].event == log.hist[k][w]
  {
    assert Holds(t, log.ps[k], log.hist[k]);
    assert HasRow(t, log.ps[k], w + 1);
    id :| id in t && IsRow(t, id, log.ps[k], w + 1);
  }

  /** From `from` on the verdict on a fqfield is decided by the history alone. */
  lemma FqfieldVerdict(
    log: Log, t: EventTable, cfs: CollectionFields, links: Links, from: Position, f: Fqid, field: Field, p: Position)
    requires HoldsHistory(t, log.ps, log.hist) && Ascending(log.ps) && IndexOk(log, t, cfs, links, from) && from <= p
    ensures FqfieldBroken(t, links, f, field, p) <==> TouchedAfter(log, f, field, p)
  {
    hide ModelsBefore, TouchedFields, Holds;
    var cf := CollectionField(f.collection, field);
    if FqfieldBroken(t, links, f, field, p) {
      var id :| id in t && t[id].event.fqid == f && t[id].position > p && (id, cf) in links;
      assert LinkOk(log, t, id, cf);
      var k: nat :| k < |log.ps| && log.ps[k] == t[id].position && Touches(log, k, t[id].weight - 1, cf);
      RowOf(log, t, id, k);
      assert TouchesField(log, k, t[id].weight - 1, f, field);
    }
    if TouchedAfter(log, f, field, p) {
      var k: nat, w: nat :| TouchesField(log, k, w, f, field) && log.ps[k] > p;
      var id := RowFor(log, t, k, w);
      assert (id, cf) in links;
    }
  }

  ghost predicate CollectionTouchedAfter(log: Log, cf: CollectionField, p: Position) {
    exists k: nat, w: nat :: Touches(log, k, w, cf) && log.ps[k] > p
  }

  lemma CollectionFieldVerdict(
    log: Log, t: EventTable, cfs: CollectionFields, links: Links, from: Position, cf: CollectionField, p: Position)
    requires HoldsHistory(t, log.ps, log.hist) && Ascending(log.ps) && IndexOk(log, t, cfs, links, from) && from <= p
    ensures CollectionFieldBroken(cfs, cf, p) <==> CollectionTouchedAfter(log, cf, p)
  {
    hide ModelsBefore, TouchedFields, Holds;
    if CollectionFieldBroken(cfs, cf, p) {
      assert Newest(t, cfs, links, cf);
      var id :| id in t && (id, cf) in links && t[id].position == cfs[cf];
      assert LinkOk(log, t, id, cf);
      var k: nat :| k < |log.ps| && log.ps[k] == t[id].position && Touches(log, k, t[id].weight - 1, cf);
      assert Touches(log, k, t[id].weight - 1, cf) && log.ps[k] > p;
    }
    if CollectionTouchedAfter(log, cf, p) {
      var k: nat, w: nat :| Touches(log, k, w, cf) && log.ps[k] > p;
      InRange(log, k, w, cf);
      var id := RowFor(log, t, k, w);
      assert (id, cf) in links;
    }
  }

  lemma InRange(log: Log, k: nat, w: nat, cf: CollectionField)
    requires Touches(log, k, w, cf)
    ensures k < |log.ps| && k < |log.hist| && w < |log.hist[k]|
  {}

  // ---------------------------------------------------------------- no stale lock

  /** A fqid lock that holds: the whole model is what it was, at any position. */
  lemma FqidLockHolds(log: Log, t: EventTable, models: Models, f: Fqid, p: Position)
    requires HoldsHistory(t, log.ps, log.hist) && Ascending(log.ps) && CacheOk(log.ps, log.hist, models)
    requires !FqidBroken(t, f, p)
    ensures ModelsUpTo(log, p).Ok? && Lookup(ModelsUpTo(log, p).value, f) == Lookup(models, f)
  {
    hide Holds, ReplayEvents, Lookup;
    CountSplits(log.ps, p);
    var j := CountUpTo(log.ps, p);
    forall i: nat, w: nat | j <= i < |log.ps| && w < |log.hist[i]|
      ensures log.hist[i][w].fqid != f
    {
      var id := RowFor(log, t, i, w);
    }
    OtherFqidAcross(log, j, |log.ps|, f);
  }

  /** A fqfield lock that holds: the field reads what it read at the position. */
  lemma FqfieldLockHolds(
    log: Log, t: EventTable, cfs: CollectionFields, links: Links, from: Position, models: Models,
    f: Fqid, field: Field, p: Position)
    requires HoldsHistory(t, log.ps, log.hist) && Ascending(log.ps) && CacheOk(log.ps, log.hist, models)
    requires IndexOk(log, t, cfs, links, from) && from <= p && !IsReserved(field)
    requires !FqfieldBroken(t, links, f, field, p)
    ensures ModelsUpTo(log, p).Ok? && Visible(ModelsUpTo(log, p).value, f, field) == Visible(models, f, field)
  {
    hide Holds, ReplayEvents, Visible, Touches;
    FqfieldVerdict(log, t, cfs, links, from, f, field, p);
    CountSplits(log.ps, p);
    var j := CountUpTo(log.ps, p);
    forall i: nat, w: nat | j <= i < |log.ps| && w < |log.hist[i]|
      ensures Untouched(log, i, w, f, field)
    {
      assert TouchesField(log, i, w, f, field) ==> TouchedAfter(log, f, field, p);
    }
    UntouchedAcross(log, j, |log.ps|, f, field);
  }

  /** A collectionfield lock that holds: the field reads the same on every model of the collection. */
  lemma CollectionFieldLockHolds(
    log: Log, t: EventTable, cfs: CollectionFields, links: Links, from: Position, models: Models,
    f: Fqid, field: Field, p: Position)
    requires HoldsHistory(t, log.ps, log.hist) && Ascending(log.ps) && CacheOk(log.ps, log.hist, models)
    requires IndexOk(log, t, cfs, links, from) && from <= p && !IsReserved(field)
    requires !CollectionFieldBroken(cfs, CollectionField(f.collection, field), p)
    ensures ModelsUpTo(log, p).Ok? && Visible(ModelsUpTo(log, p).value, f, field) == Visible(models, f, field)
  {
    hide Holds, ReplayEvents, Visible, ModelsBefore, TouchedFields, Newest, LinkOk;
    CollectionFieldVerdict(log, t, cfs, links, from, CollectionField(f.collection, field), p);
    forall id | (id, CollectionField(f.collection, field)) in links
      ensures id in t ==> t[id].position <= p
    {
      assert CollectionField(f.collection, field) in cfs;
    }
    FqfieldLockHolds(log, t, cfs, links, from, models, f, field, p);
  }

  /** A filtered lock that holds: the same, on every model that matches the filter now. */
  lemma FilteredLockHolds(
    log: Log, t: EventTable, cfs: CollectionFields, links: Links, from: Position, models: Models,
    f: Fqid, field: Field, p: Position, matches: ModelRow -> bool)
    requires HoldsHistory(t, log.ps, log.hist) && Ascending(log.ps) && CacheOk(log.ps, log.hist, models)
    requires IndexOk(log, t, cfs, links, from) && from <= p && !IsReserved(field)
    requires !FilteredBroken(t, links, models, CollectionField(f.collection, field), p, matches)
    requires f in models && matches(models[f])
    ensures ModelsUpTo(log, p).Ok? && Visible(ModelsUpTo(log, p).value, f, field) == Visible(models, f, field)
  {
    hide Holds, ReplayEvents, Visible, Touches, IndexOk;
    FqfieldLockHolds(log, t, cfs, links, from, models, f, field, p);
  }
}
