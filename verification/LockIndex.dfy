/** The tables `collectionfields` and `events_to_collectionfields`: which event modified which field. */
module LockIndex {
  import opened Types
  import opened Replay
  import opened Tables
  import opened DbEvents

  type CollectionFields = map<CollectionField, Position>
  type Links = set<(nat, CollectionField)>

  datatype Log = Log(ps: seq<Position>, hist: seq<seq<Event>>)

  /** The second log starts with the first one. */
  ghost predicate LogPrefix(log: Log, log': Log) {
    && |log.ps| == |log.hist| <= |log'.ps| == |log'.hist|
    && log.ps == log'.ps[..|log.ps|] && log.hist == log'.hist[..|log.ps|]
  }

  /** The models just before the `w`-th event of the `k`-th position. */
  ghost function ModelsBefore(log: Log, k: nat, w: nat): Result<Models>
    requires k < |log.ps| && k < |log.hist| && w <= |log.hist[k]|
  {
    Then(ReplayHistory(log.ps, log.hist, k), log.hist[k][..w], log.ps[k])
  }

  /** The `w`-th event of the `k`-th position modifies the collectionfield. */
  ghost predicate Touches(log: Log, k: nat, w: nat, cf: CollectionField) {
    && k < |log.ps| && k < |log.hist| && w < |log.hist[k]|
    && ModelsBefore(log, k, w).Ok?
    && var e := log.hist[k][w];
      e.fqid.collection == cf.collection && cf.field in TouchedFields(Lookup(ModelsBefore(log, k, w).value, e.fqid), e)
  }

  /** The fields that count as modified: those the event names, and all of a model deleted or restored. */
  lemma TouchedMeans(row: Option<ModelRow>, e: Event, f: Field)
    ensures var held := row.Some? && f in row.value.data;
      && (e.Create? ==> (f in TouchedFields(row, e) <==> f in e.data || f == META_DELETED))
      && (e.Update? ==> (f in TouchedFields(row, e) <==> f in e.data))
      && (e.DeleteFields? ==> (f in TouchedFields(row, e) <==> f in e.fields))
      && (e.ListUpdate? ==> (f in TouchedFields(row, e) <==> f in e.add || (f in e.remove && held)))
      && (e.Delete? || e.Restore? ==> (f in TouchedFields(row, e) <==> held))
  {}

  /** A link stands for an event that does modify the field. */
  ghost predicate LinkOk(log: Log, t: EventTable, id: nat, cf: CollectionField) {
    && id in t && 1 <= t[id].weight
    && exists k: nat :: k < |log.ps| && log.ps[k] == t[id].position && Touches(log, k, t[id].weight - 1, cf)
  }

  ghost predicate Newest(t: EventTable, cfs: CollectionFields, links: Links, cf: CollectionField)
    requires cf in cfs
  {
    exists id :: id in t && (id, cf) in links && t[id].position == cfs[cf]
  }

  /**
   * Every link is right, every modification after `from` is linked, and the position of a
   * collectionfield is the greatest one among its linked events.
   */
  ghost predicate IndexOk(log: Log, t: EventTable, cfs: CollectionFields, links: Links, from: Position) {
    && (forall id, cf | (id, cf) in links :: cf in cfs && LinkOk(log, t, id, cf) && t[id].position <= cfs[cf])
    && (forall k: nat, w: nat, id: nat, cf |
          Touches(log, k, w, cf) && IsRow(t, id, log.ps[k], w + 1) && log.ps[k] > from :: (id, cf) in links)
    && (forall cf | cf in cfs :: Newest(t, cfs, links, cf))
  }

  lemma TouchesFrame(log: Log, log': Log, k: nat, w: nat, cf: CollectionField)
    requires |log.ps| == |log.hist| <= |log'.ps| == |log'.hist| && k < |log.ps|
    requires log.ps == log'.ps[..|log.ps|] && log.hist == log'.hist[..|log.ps|]
    ensures Touches(log', k, w, cf) <==> Touches(log, k, w, cf)
  {
    assert log'.ps[k] == log'.ps[..|log.ps|][k];
    assert log'.hist[k] == log'.hist[..|log.ps|][k];
    assert log.ps[..k] == log'.ps[..|log.ps|][..k] == log'.ps[..k];
    assert log.hist[..k] == log'.hist[..|log.ps|][..k] == log'.hist[..k];
    HistoryFrame(log.ps, log.hist, log'.ps, log'.hist, k);
  }

  /** The event table after the events of a new position have been inserted with ids from `first` on. */
  ghost predicate Inserted(t: EventTable, t': EventTable, first: nat, p: Position, es: seq<Event>) {
    && IdsBelow(t, first)
    && (forall id | id in t :: id in t' && t'[id] == t[id])
    && (forall id | first <= id < first + |es| :: id in t' && t'[id] == EventRow(p, id - first + 1, es[id - first]))
    && (forall id | id in t' :: id in t || (first <= id < first + |es|))
  }

  lemma InsertedAtNew(t: EventTable, t': EventTable, first: nat, p: Position, es: seq<Event>)
    requires Inserted(t, t', first, p, es) && forall id | id in t :: t[id].position != p
    ensures Holds(t', p, es)
  {
    hide Holds;
    var ids := seq(|es|, i requires 0 <= i < |es| => first + i);
    forall id | id in t' && t'[id].position == p
      ensures id in ids
    {
      assert id == ids[id - first];
    }
    ListedHolds(t', p, ids, es);
  }

  lemma InsertedAtOld(
    t: EventTable, t': EventTable, first: nat, p: Position, es: seq<Event>, q: Position, es': seq<Event>)
    requires Inserted(t, t', first, p, es) && p != q && Holds(t, q, es')
    ensures Holds(t', q, es')
  {
    hide Holds;
    HoldsFrame(t, t', q, es');
  }

  lemma InsertedHolds(log: Log, log': Log, t: EventTable, t': EventTable, first: nat, p: Position, es: seq<Event>)
    requires HoldsHistory(t, log.ps, log.hist) && Inserted(t, t', first, p, es)
    requires log' == Log(log.ps + [p], log.hist + [es]) && p !in log.ps
    ensures HoldsHistory(t', log'.ps, log'.hist)
  {
    hide Holds;
    var n := |log.ps|;
    InsertedAtNew(t, t', first, p, es);
    forall i | 0 <= i < |log'.ps|
      ensures Holds(t', log'.ps[i], log'.hist[i])
    {
      if i < n {
        assert log.ps[i] != p;
        InsertedAtOld(t, t', first, p, es, log.ps[i], log.hist[i]);
      }
    }
    forall id | id in t'
      ensures t'[id].position in log'.ps
    {
      assert log'.ps[n] == p;
      assert forall q | q in log.ps :: q in log'.ps;
    }
  }

  ghost predicate TouchedNow(log: Log, k: nat, cf: CollectionField) {
    k < |log.hist| && exists i: nat :: i < |log.hist[k]| && Touches(log, k, i, cf)
  }

  /** The index after the writer has connected the events of a new position. */
  ghost predicate Connected(
    log: Log, k: nat, cfs: CollectionFields, cfs': CollectionFields, links: Links, links': Links, first: nat)
    requires k < |log.hist| && k < |log.ps|
  {
    && (forall id, cf :: (id, cf) in links' <==>
          (id, cf) in links || (first <= id < first + |log.hist[k]| && Touches(log, k, id - first, cf)))
    && (forall cf :: cf in cfs' <==> cf in cfs || TouchedNow(log, k, cf))
    && (forall cf | cf in cfs' :: cfs'[cf] == if TouchedNow(log, k, cf) then log.ps[k] else cfs[cf])
  }

  ghost predicate SameTouches(log: Log, log': Log, n: nat) {
    forall k: nat, w: nat, cf | k < n :: Touches(log', k, w, cf) <==> Touches(log, k, w, cf)
  }

  lemma LinkStaysOk(log: Log, log': Log, t: EventTable, t': EventTable, id: nat, cf: CollectionField)
    requires LogPrefix(log, log') && SameTouches(log, log', |log.ps|)
    requires LinkOk(log, t, id, cf) && id in t' && t'[id] == t[id]
    ensures LinkOk(log', t', id, cf)
  {
    hide Touches;
    var k: nat :| k < |log.ps| && log.ps[k] == t[id].position && Touches(log, k, t[id].weight - 1, cf);
    assert log'.ps[k] == log'.ps[..|log.ps|][k];
    assert Touches(log', k, t'[id].weight - 1, cf);
  }

  lemma NewestNow(
    log: Log, log': Log, t: EventTable, t': EventTable, first: nat, p: Position, es: seq<Event>,
    cfs: CollectionFields, cfs': CollectionFields, links: Links, links': Links, cf: CollectionField)
    requires |log.ps| == |log.hist| && log' == Log(log.ps + [p], log.hist + [es]) && Inserted(t, t', first, p, es)
    requires Connected(log', |log.ps|, cfs, cfs', links, links', first)
    requires cf in cfs' && (cf in cfs ==> Newest(t, cfs, links, cf))
    ensures Newest(t', cfs', links', cf)
  {
    hide Touches;
    var n := |log.ps|;
    if TouchedNow(log', n, cf) {
      var i: nat :| i < |es| && Touches(log', n, i, cf);
      assert (first + i, cf) in links' && t'[first + i].position == p;
    } else {
      var id :| id in t && (id, cf) in links && t[id].position == cfs[cf];
      assert (id, cf) in links' && t'[id].position == cfs'[cf];
    }
  }

  lemma AppendKeepsIndex(
    log: Log, log': Log, t: EventTable, t': EventTable, first: nat, p: Position, es: seq<Event>,
    cfs: CollectionFields, cfs': CollectionFields, links: Links, links': Links, from: Position)
    requires |log.ps| == |log.hist| && Inserted(t, t', first, p, es)
    requires forall id | id in t :: t[id].position in log.ps
    requires log' == Log(log.ps + [p], log.hist + [es]) && forall i | 0 <= i < |log.ps| :: log.ps[i] < p
    requires IndexOk(log, t, cfs, links, from)
    requires Connected(log', |log.ps|, cfs, cfs', links, links', first)
    ensures IndexOk(log', t', cfs', links', from)
  {
    hide ModelsBefore, TouchedFields, HoldsHistory, Newest;
    var n := |log.ps|;
    assert log.ps == log'.ps[..n] && log.hist == log'.hist[..n];
    forall k: nat, w: nat, cf | k < n
      ensures Touches(log', k, w, cf) <==> Touches(log, k, w, cf)
    {
      TouchesFrame(log, log', k, w, cf);
    }
    forall id, cf | (id, cf) in links'
      ensures cf in cfs' && LinkOk(log', t', id, cf) && t'[id].position <= cfs'[cf]
    {
      if (id, cf) in links {
        LinkStaysOk(log, log', t, t', id, cf);
      } else {
        assert Touches(log', n, t'[id].weight - 1, cf);
        assert TouchedNow(log', n, cf);
      }
    }
    forall k: nat, w: nat, id: nat, cf |
        Touches(log', k, w, cf) && IsRow(t', id, log'.ps[k], w + 1) && log'.ps[k] > from
      ensures (id, cf) in links'
    {
      if k < n {
        assert IsRow(t, id, log.ps[k], w + 1);
      } else {
        assert id !in t;
      }
    }
    forall cf | cf in cfs'
      ensures Newest(t', cfs', links', cf)
    {
      NewestNow(log, log', t, t', first, p, es, cfs, cfs', links, links', cf);
    }
  }

  /** Empty tables are complete from the last position on. */
  lemma EmptyIndex(log: Log, t: EventTable, from: Position)
    requires forall i | 0 <= i < |log.ps| :: log.ps[i] <= from
    ensures IndexOk(log, t, map[], {}, from)
  {}
}
