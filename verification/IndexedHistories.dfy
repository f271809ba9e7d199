/** Every history that replays is that of some datastore, with a lock index that covers all of it. */
module IndexedHistories {
  import opened Types
  import opened Replay
  import opened Tables
  import opened DbEvents
  import opened LockIndex
  import opened OccLockers
  import opened Writers

  /** A number above all of them. */
  ghost function Above(ids: set<nat>): (n: nat)
    ensures forall id | id in ids :: id < n
    decreases |ids|
  {
    if ids == {} then 0
    else
      var id :| id in ids;
      var n := Above(ids - {id});
      assert forall other | other in ids :: other == id || other in ids - {id};
      if id < n then n else id + 1
  }

  /** The collectionfields that an event modifies. */
  ghost function ModifiedBy(log: Log, k: nat, w: nat): (modified: set<CollectionField>)
    requires k < |log.ps| && k < |log.hist| && w < |log.hist[k]|
    ensures forall cf :: cf in modified <==> Touches(log, k, w, cf)
  {
    if ModelsBefore(log, k, w).Err? then {}
    else
      var e := log.hist[k][w];
      var modified := set g | g in TouchedFields(Lookup(ModelsBefore(log, k, w).value, e.fqid), e) ::
        CollectionField(e.fqid.collection, g);
      assert forall cf | Touches(log, k, w, cf) :: cf == CollectionField(e.fqid.collection, cf.field);
      modified
  }

  /** The links for the first `m` events of a position, whose ids start at `first`. */
  ghost function LinksOf(log: Log, k: nat, first: nat, m: nat): (links: Links)
    requires k < |log.ps| && k < |log.hist| && m <= |log.hist[k]|
    ensures forall id, cf :: (id, cf) in links <==> first <= id < first + m && Touches(log, k, id - first, cf)
  {
    if m == 0 then {}
    else
      var id := first + m - 1;
      LinksOf(log, k, first, m - 1) + set cf | cf in ModifiedBy(log, k, m - 1) :: (id, cf)
  }

  ghost function RowsOf(p: Position, es: seq<Event>, first: nat): (t: EventTable)
    ensures forall id :: id in t <==> first <= id < first + |es|
    ensures forall id | id in t :: t[id] == EventRow(p, id - first + 1, es[id - first])
  {
    if es == [] then map[]
    else
      var n := |es| - 1;
      RowsOf(p, es[..n], first)[first + n := EventRow(p, n + 1, es[n])]
  }

  lemma RowsInserted(t: EventTable, p: Position, es: seq<Event>, first: nat)
    requires IdsBelow(t, first)
    ensures Inserted(t, t + RowsOf(p, es, first), first, p, es)
  {
    var rows := RowsOf(p, es, first);
    assert forall id | id in t :: id !in rows;
    assert forall id :: id in t + rows <==> id in t || id in rows;
  }

  lemma LastConnected(log: Log, k: nat, first: nat, cfs: CollectionFields, links: Links)
    requires k < |log.ps| && k < |log.hist|
    ensures var added := LinksOf(log, k, first, |log.hist[k]|);
      Connected(log, k, cfs, cfs + (map link | link in added :: link.1 := log.ps[k]), links, links + added, first)
  {
    hide Touches;
    var added := LinksOf(log, k, first, |log.hist[k]|);
    forall cf
      ensures TouchedNow(log, k, cf) <==> exists link | link in added :: link.1 == cf
    {
      if i: nat :| i < |log.hist[k]| && Touches(log, k, i, cf) {
        assert (first + i, cf) in added;
      }
      if link :| link in added && link.1 == cf {
        assert (link.0, cf) in added && Touches(log, k, link.0 - first, cf);
      }
    }
  }

  lemma {:induction false} Indexable(log: Log) returns (s: Snapshot)
    requires |log.ps| == |log.hist| && Ascending(log.ps) && ReplayHistory(log.ps, log.hist, |log.ps|).Ok?
    ensures SnapshotOk(s) && s.log == log && s.from == 0
    decreases |log.ps|
  {
    hide Touches, ReplayEvents, Inserted, Connected, IndexOk, Holds;
    if log.ps == [] {
      s := Snapshot(log, LockTables(map[], map[], {}, map[]), 0);
      EmptyIndex(log, map[], 0);
    } else {
      var n := |log.ps| - 1;
      var front, p, es := Log(log.ps[..n], log.hist[..n]), log.ps[n], log.hist[n];
      HistoryFrame(log.ps, log.hist, front.ps, front.hist, n);
      var s0 := Indexable(front);
      s := OnePositionMore(s0, log);
    }
  }

  lemma OnePositionMore(s0: Snapshot, log: Log) returns (s: Snapshot)
    requires SnapshotOk(s0) && s0.from == 0 && |s0.log.ps| == |s0.log.hist|
    requires |log.ps| == |log.hist| == |s0.log.ps| + 1 && Ascending(log.ps)
    requires log.ps[..|s0.log.ps|] == s0.log.ps && log.hist[..|s0.log.ps|] == s0.log.hist
    requires ReplayHistory(log.ps, log.hist, |log.ps|).Ok?
    ensures SnapshotOk(s) && s.log == log && s.from == 0
  {
    hide Touches, ReplayHistory, Connected, IndexOk, Holds, Inserted;
    var n, t := |s0.log.ps|, s0.tables;
    var p, es, first := log.ps[n], log.hist[n], Above(t.events.Keys);
    var events := t.events + RowsOf(p, es, first);
    var added := LinksOf(log, n, first, |es|);
    var cfs := t.collectionfields + (map link | link in added :: link.1 := p);
    assert log == Log(s0.log.ps + [p], s0.log.hist + [es]);
    assert IdsBelow(t.events, first) by { assert forall id | id in t.events :: id in t.events.Keys; }
    RowsInserted(t.events, p, es, first);
    LastConnected(log, n, first, t.collectionfields, t.links);
    assert forall i | 0 <= i < n :: s0.log.ps[i] == log.ps[i];
    InsertedHolds(s0.log, log, t.events, events, first, p, es);
    AppendKeepsIndex(
      s0.log, log, t.events, events, first, p, es, t.collectionfields, cfs, t.links, t.links + added, 0);
    s := Snapshot(log, LockTables(events, cfs, t.links + added, ReplayHistory(log.ps, log.hist, |log.ps|).value), 0);
  }
}
