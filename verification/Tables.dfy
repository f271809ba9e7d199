/** The database: every table is a field, every query is what it means on that field. */
module Tables {
  import opened Types
  import opened EventMigrations

  datatype PositionRow = PositionRow(position: Position, migrationIndex: int)

  /** A row of `events` or `migration_events`; the key of the table is the serial id. */
  datatype EventRow = EventRow(position: Position, weight: nat, event: Event)
  type EventTable = map<nat, EventRow>

  class Database {
    var positions: seq<PositionRow>              // ordered by position
    var positionSeq: nat                         // the last position handed out; gaps are allowed
    var events: EventTable
    var eventSeq: nat                            // the next event id
    var models: Models
    var idSequences: map<Collection, int>
    var collectionfields: map<CollectionField, Position>
    var links: set<(nat, CollectionField)>       // events_to_collectionfields
    var migrationPositions: map<Position, int>
    var migrationEvents: EventTable
    var migrationEventSeq: nat
    var keyframes: map<(Position, int), Models>  // migration_keyframes with their migration_keyframe_models

    ghost var history: seq<seq<Event>>           // the events of each position, by weight
    ghost var migrations: seq<EventMigration>    // those the migration tables were made with
    ghost var indexedFrom: Position              // the lock index is complete after this position

    constructor ()
      ensures positions == [] && positionSeq == 0 && history == []
      ensures events == map[] && eventSeq == 1 && models == map[] && idSequences == map[]
      ensures collectionfields == map[] && links == {} && indexedFrom == 0
      ensures migrationPositions == map[] && migrationEvents == map[] && migrationEventSeq == 1
      ensures keyframes == map[] && migrations == []
    {
      positions, positionSeq, history := [], 0, [];
      events, eventSeq, models, idSequences := map[], 1, map[], map[];
      collectionfields, links, indexedFrom := map[], {}, 0;
      migrationPositions, migrationEvents, migrationEventSeq := map[], map[], 1;
      keyframes, migrations := map[], [];
    }
  }

  // ---------------------------------------------------------------- positions

  function PositionsOf(rows: seq<PositionRow>): (ps: seq<Position>)
    ensures |ps| == |rows| && forall i | 0 <= i < |rows| :: ps[i] == rows[i].position
  {
    seq(|rows|, i requires 0 <= i < |rows| => rows[i].position)
  }

  ghost predicate Ascending(ps: seq<Position>) {
    && (forall i | 0 <= i < |ps| :: 0 < ps[i])
    && (forall i, j | 0 <= i < j < |ps| :: ps[i] < ps[j])
  }

  /** The position after `p`, if any. */
  function FirstAfter(rows: seq<PositionRow>, p: Position): Option<Position> {
    if rows == [] then None
    else if rows[0].position > p then Some(rows[0].position)
    else FirstAfter(rows[1..], p)
  }

  lemma {:induction false} FirstAfterIs(rows: seq<PositionRow>, p: Position, i: nat)
    requires i < |rows| && rows[i].position > p
    requires forall j | 0 <= j < i :: rows[j].position <= p
    ensures FirstAfter(rows, p) == Some(rows[i].position)
  {
    if i > 0 { FirstAfterIs(rows[1..], p, i - 1); }
  }

  // ---------------------------------------------------------------- event tables

  predicate IsRow(t: EventTable, id: nat, p: Position, w: nat) {
    id in t && t[id].position == p && t[id].weight == w
  }

  predicate HasRow(t: EventTable, p: Position, w: nat) { exists id | id in t :: IsRow(t, id, p, w) }

  /** The rows of position `p` are the events `es`, with the weights 1, 2, ... */
  ghost predicate Holds(t: EventTable, p: Position, es: seq<Event>) {
    && (forall id | id in t && t[id].position == p ::
          1 <= t[id].weight <= |es| && t[id].event == es[t[id].weight - 1])
    && (forall w: nat | 1 <= w <= |es| :: HasRow(t, p, w))
    && (forall id, id' | id in t && id' in t && t[id].position == p == t[id'].position ::
          t[id].weight == t[id'].weight ==> id == id')
  }

  /** `select ... from t where position = p order by weight asc`. */
  method SelectEvents(t: EventTable, p: Position, ghost es: seq<Event>) returns (r: seq<Event>)
    requires Holds(t, p, es)
    ensures r == es
  {
    r := [];
    while HasRow(t, p, |r| + 1)
      invariant |r| <= |es| && r == es[..|r|]
      decreases |es| - |r|
    {
      var id :| id in t && IsRow(t, id, p, |r| + 1);
      r := r + [t[id].event];
    }
    assert |r| == |es|;
  }

  /** `select id from t where position = p`: without an order, so in any order. */
  method SelectIds(t: EventTable, p: Position) returns (ids: seq<nat>)
    ensures forall id :: id in ids <==> id in t && t[id].position == p
    ensures forall i, j | 0 <= i < j < |ids| :: ids[i] != ids[j]
  {
    ids := [];
    var todo := set id | id in t && t[id].position == p;
    while todo != {}
      invariant forall id :: id in todo || id in ids <==> id in t && t[id].position == p
      invariant forall id | id in ids :: id !in todo
      invariant forall i, j | 0 <= i < j < |ids| :: ids[i] != ids[j]
      decreases |todo|
    {
      var id := Pick(todo);
      todo := todo - {id};
      ids := ids + [id];
    }
  }

  lemma ListedHolds(t: EventTable, p: Position, ids: seq<nat>, es: seq<Event>)
    requires |ids| == |es|
    requires forall i | 0 <= i < |ids| :: ids[i] in t && t[ids[i]] == EventRow(p, i + 1, es[i])
    requires forall id | id in t && t[id].position == p :: id in ids
    ensures Holds(t, p, es)
  {
    forall w: nat | 1 <= w <= |es|
      ensures HasRow(t, p, w)
    {
      assert IsRow(t, ids[w - 1], p, w);
    }
  }

  /** Rows of other positions do not matter. */
  lemma HoldsFrame(t: EventTable, t': EventTable, p: Position, es: seq<Event>)
    requires Holds(t, p, es)
    requires forall id | id in t && t[id].position == p :: id in t' && t'[id] == t[id]
    requires forall id | id in t' && t'[id].position == p :: id in t && t'[id] == t[id]
    ensures Holds(t', p, es)
  {
    forall w: nat | 1 <= w <= |es|
      ensures HasRow(t', p, w)
    {
      assert HasRow(t, p, w);
      var id :| id in t && IsRow(t, id, p, w);
      assert IsRow(t', id, p, w);
    }
  }

  lemma HoldsUnique(t: EventTable, p: Position, a: seq<Event>, b: seq<Event>)
    requires Holds(t, p, a) && Holds(t, p, b)
    ensures a == b
  {
    assert |a| < |b| ==> HasRow(t, p, |a| + 1);
    assert |b| < |a| ==> HasRow(t, p, |b| + 1);
    forall i | 0 <= i < |a|
      ensures a[i] == b[i]
    {
      assert HasRow(t, p, i + 1);
    }
  }

  ghost predicate IdsBelow(t: EventTable, next: nat) { forall id | id in t :: id < next }

  lemma IdsStayBelow(t: EventTable, next: nat, next': nat)
    requires IdsBelow(t, next) && next <= next'
    ensures IdsBelow(t, next')
  {}

  /** The table holds the events of every position, and of no other one. */
  ghost predicate HoldsHistory(t: EventTable, ps: seq<Position>, hist: seq<seq<Event>>) {
    && |ps| == |hist|
    && (forall id | id in t :: t[id].position in ps)
    && (forall i | 0 <= i < |ps| :: Holds(t, ps[i], hist[i]))
  }
}
