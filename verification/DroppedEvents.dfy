/** What the dropping of empty events does to models: exactly when a migration that changes nothing changes nothing. */
module DroppedEvents {
  import opened Types
  import opened ListFields
  import opened Replay
  import opened Tables
  import opened EventMigrations
  import opened Simulations
  import opened FieldMigrations
  import opened PositionFree

  /**
   * Dropping the event leaves the model as it is: a list update has to find all fields of its addition,
   * and lists in the fields of its removal.
   */
  predicate Unnoticed(row: Option<ModelRow>, e: Event) {
    e.ListUpdate? && row.Some? ==>
      var data := row.value.data;
      e.add.Keys <= data.Keys && forall f | f in e.remove.Keys * data.Keys :: data[f].List?
  }

  lemma DroppedStep(row: Option<ModelRow>, e: Event, pos: Position)
    requires IsNoop(e) && Step(row, e, pos).Ok? && (row.Some? ==> RowOk(row.value))
    ensures row.Some? && (SameRow(Step(row, e, pos).value, row.value) <==> Unnoticed(row, e))
  {
    MetaFieldsAreReserved();
    if e.ListUpdate? {
      DroppedListUpdate(row.value, e, pos);
    } else {
      var data := row.value.data[META_POSITION := Int(pos)];
      assert Step(row, e, pos).value.data == data;
      assert data - {META_POSITION} == row.value.data - {META_POSITION};
    }
  }

  /** A model with lists in all fields that a list update names. */
  ghost predicate Settled(row: ModelRow, e: Event) {
    && RowOk(row) && !row.deleted
    && (e.ListUpdate? ==> forall f | f in e.add || f in e.remove :: f in row.data && row.data[f].List?)
  }

  /** What happens to the event, the model reads as before. */
  ghost predicate LeavesAlone(e: Event, row: ModelRow, pos: Position) {
    var after := Step(Some(row), e, pos);
    after.Ok? && SameRow(after.value, row)
  }

  /**
   * An event is empty just if it can change no model, as far as it finds lists where it needs them.
   * Creates, deletes and restores never are.
   */
  lemma NoopMeans(e: Event, pos: Position)
    requires e.WellFormed()
    ensures e.Create? || e.Delete? || e.Restore? ==> !IsNoop(e)
    ensures e.Update? || e.DeleteFields? || e.ListUpdate? ==>
      (IsNoop(e) <==> forall row | Settled(row, e) :: LeavesAlone(e, row, pos))
  {
    if e.Update? || e.DeleteFields? || e.ListUpdate? {
      if IsNoop(e) {
        forall row | Settled(row, e)
          ensures LeavesAlone(e, row, pos)
        {
          EmptyLeavesAlone(e, row, pos);
        }
      } else {
        var row := SomeChanged(e, pos);
      }
    }
  }

  lemma EmptyLeavesAlone(e: Event, row: ModelRow, pos: Position)
    requires e.WellFormed() && IsNoop(e) && Settled(row, e)
    ensures LeavesAlone(e, row, pos)
  {
    MetaFieldsAreReserved();
    if e.ListUpdate? {
      var data := row.data[META_POSITION := Int(pos)];
      forall f | f in Touched(data, e.add, e.remove)
        ensures ListValue(data, e.add, e.remove, f).Some?
      {
        assert f in data && data[f].List?;
      }
    }
    DroppedStep(Some(row), e, pos);
  }

  /** A model with this list in these fields, and nothing else. */
  function ListsIn(fields: set<Field>, items: seq<Json>): ModelRow {
    var lists: Model := map f | f in fields :: List(items);
    ModelRow(lists + map[META_DELETED := Bool(false), META_POSITION := Int(0)], false)
  }

  lemma SomeChanged(e: Event, pos: Position) returns (row: ModelRow)
    requires e.WellFormed() && !IsNoop(e) && (e.Update? || e.DeleteFields? || e.ListUpdate?)
    ensures Settled(row, e) && !LeavesAlone(e, row, pos)
  {
    MetaFieldsAreReserved();
    match e
    case Update(_, data) =>
      var f :| f in data;
      row := ListsIn({}, []);
      assert f in Timeless(Step(Some(row), e, pos).value) && f !in Timeless(row);
    case DeleteFields(_, fields) =>
      row := ListsIn({fields[0]}, []);
      assert fields[0] in Timeless(row) && fields[0] !in Timeless(Step(Some(row), e, pos).value);
    case ListUpdate(_, add, remove) =>
      var named := add.Keys + remove.Keys;
      if f :| f in remove && remove[f] != [] {
        row := ListsIn(named, [remove[f][0]]);
        ListChanged(e, row, pos, f);
      } else {
        var f :| f in add && add[f] != [];
        row := ListsIn(named, []);
        ListChanged(e, row, pos, f);
      }
  }

  lemma ListChanged(e: Event, row: ModelRow, pos: Position, f: Field)
    requires e.WellFormed() && e.ListUpdate? && Settled(row, e) && (f in e.add || f in e.remove)
    requires if f in e.remove && e.remove[f] != [] then row.data[f] == List([e.remove[f][0]])
      else row.data[f] == List([]) && f in e.add && e.add[f] != []
    ensures !LeavesAlone(e, row, pos)
  {
    MetaFieldsAreReserved();
    var data, after := row.data[META_POSITION := Int(pos)], Step(Some(row), e, pos);
    assert f in Touched(data, e.add, e.remove) && data[f] == row.data[f];
    ListUpdateMeans(data, e.add, e.remove, f);
    if after.Ok? {
      var items := ListValue(data, e.add, e.remove, f).value;
      assert after.value.data[f] == List(items);
      if f in e.remove && e.remove[f] != [] {
        assert e.remove[f][0] !in items;
      } else {
        assert e.add[f][0] in items;
      }
      assert Timeless(after.value)[f] != Timeless(row)[f];
    }
  }

  /** The models before the `w`-th event of a queue; those of the migration have missed the empty ones. */
  function Original(src: Models, queue: seq<Event>, w: nat, pos: Position): Result<Models>
    requires w <= |queue|
  {
    ReplayEvents(src, queue[..w], pos)
  }

  function Cleared(dst: Models, queue: seq<Event>, w: nat, pos: Position): Result<Models>
    requires w <= |queue|
  {
    ReplayEvents(dst, DropNoops(queue[..w]), pos)
  }

  ghost predicate SameUpTo(src: Models, dst: Models, queue: seq<Event>, w: nat, pos: Position)
    requires w <= |queue|
  {
    && Original(src, queue, w, pos).Ok? && Cleared(dst, queue, w, pos).Ok?
    && SameApart(Original(src, queue, w, pos).value, Cleared(dst, queue, w, pos).value)
  }

  ghost predicate UnnoticedAt(src: Models, queue: seq<Event>, w: nat, pos: Position)
    requires w < |queue|
  {
    IsNoop(queue[w]) ==>
      && Original(src, queue, w, pos).Ok?
      && Unnoticed(Lookup(Original(src, queue, w, pos).value, queue[w].fqid), queue[w])
  }

  ghost predicate SameAlong(src: Models, dst: Models, queue: seq<Event>, pos: Position) {
    forall w | 0 <= w <= |queue| :: SameUpTo(src, dst, queue, w, pos)
  }

  ghost predicate UnnoticedAlong(src: Models, queue: seq<Event>, pos: Position) {
    forall w | 0 <= w < |queue| :: UnnoticedAt(src, queue, w, pos)
  }

  lemma {:induction false} DropNoopsConcat(a: seq<Event>, b: seq<Event>)
    ensures DropNoops(a + b) == DropNoops(a) + DropNoops(b)
  {
    if a == [] {
      assert a + b == b;
    } else {
      assert (a + b)[1..] == a[1..] + b;
      DropNoopsConcat(a[1..], b);
    }
  }

  lemma OriginalNext(src: Models, queue: seq<Event>, w: nat, pos: Position)
    requires w < |queue| && Original(src, queue, w, pos).Ok?
    ensures Original(src, queue, w + 1, pos) == ApplyEvent(Original(src, queue, w, pos).value, queue[w], pos)
  {
    hide ApplyEvent;
    assert queue[..w + 1][..w] == queue[..w];
  }

  lemma ClearedNext(dst: Models, queue: seq<Event>, w: nat, pos: Position)
    requires w < |queue| && Cleared(dst, queue, w, pos).Ok?
    ensures var b := Cleared(dst, queue, w, pos).value;
      Cleared(dst, queue, w + 1, pos) == if IsNoop(queue[w]) then Ok(b) else ApplyEvent(b, queue[w], pos)
  {
    hide ApplyEvent, IsNoop, ReplayEvents;
    var e := queue[w];
    assert queue[..w + 1] == queue[..w] + [e];
    DropNoopsConcat(queue[..w], [e]);
    if IsNoop(e) {
      assert DropNoops([e]) == [] && DropNoops(queue[..w]) + [] == DropNoops(queue[..w]);
    } else {
      assert DropNoops([e]) == [e];
      ReplayConcat(dst, DropNoops(queue[..w]), [e], pos);
      ReplayOne(Cleared(dst, queue, w, pos).value, e, pos);
    }
  }

  /** One event more: both have the same models after it exactly if it is not dropped, or goes unnoticed. */
  lemma SameStep(src: Models, dst: Models, queue: seq<Event>, w: nat, pos: Position)
    requires w < |queue| && RowsOk(src) && Original(src, queue, w + 1, pos).Ok? && SameUpTo(src, dst, queue, w, pos)
    ensures SameUpTo(src, dst, queue, w + 1, pos) <==> UnnoticedAt(src, queue, w, pos)
  {
    hide Step, IsNoop, Unnoticed, SameRow, RowOk, Original, Cleared, SameApart;
    var e := queue[w];
    OriginalNext(src, queue, w, pos);
    ClearedNext(dst, queue, w, pos);
    var a, b := Original(src, queue, w, pos).value, Cleared(dst, queue, w, pos).value;
    OriginalRowsOk(src, queue, w, pos);
    if IsNoop(e) {
      DroppedStep(Lookup(a, e.fqid), e, pos);
      NextSame(a, b, e.fqid, Step(Lookup(a, e.fqid), e, pos).value);
    } else {
      AppliedSame(a, b, e, pos);
    }
  }

  lemma OriginalRowsOk(src: Models, queue: seq<Event>, w: nat, pos: Position)
    requires w <= |queue| && RowsOk(src) && Original(src, queue, w, pos).Ok?
    ensures RowsOk(Original(src, queue, w, pos).value)
  {
    ReplayKeepsRowsOk(src, queue[..w], pos);
  }

  lemma AppliedSame(a: Models, b: Models, e: Event, pos: Position)
    requires SameApart(a, b) && ApplyEvent(a, e, pos).Ok?
    ensures ApplyEvent(b, e, pos).Ok? && SameApart(ApplyEvent(a, e, pos).value, ApplyEvent(b, e, pos).value)
  {
    hide Step, SameRow;
    assert SameOption(Lookup(a, e.fqid), Lookup(b, e.fqid));
    StepSame(Lookup(a, e.fqid), Lookup(b, e.fqid), e, pos, pos);
  }

  /** Replacing one row keeps models the same just if the row is. */
  lemma NextSame(a: Models, b: Models, f: Fqid, row: ModelRow)
    requires SameApart(a, b) && f in a
    ensures SameApart(a[f := row], b) <==> SameRow(row, a[f])
  {
    hide Timeless;
    assert SameApart(a[f := row], b) ==> SameRow(a[f := row][f], b[f]);
    if SameRow(row, a[f]) { assert a[f := row].Keys == a.Keys; }
  }

  lemma {:induction false} QueueSame(src: Models, dst: Models, queue: seq<Event>, pos: Position, n: nat)
    requires n <= |queue| && RowsOk(src) && SameApart(src, dst) && Original(src, queue, n, pos).Ok?
    ensures (forall w | 0 <= w <= n :: SameUpTo(src, dst, queue, w, pos))
      <==> (forall w | 0 <= w < n :: UnnoticedAt(src, queue, w, pos))
    decreases n
  {
    hide UnnoticedAt, SameApart, RowOk;
    if n == 0 {
      assert queue[..0] == [];
    } else {
      assert queue[..n][..n - 1] == queue[..n - 1];
      QueueSame(src, dst, queue, pos, n - 1);
      if forall w | 0 <= w <= n - 1 :: SameUpTo(src, dst, queue, w, pos) {
        SameStep(src, dst, queue, n - 1, pos);
      }
    }
  }
  // ---------------------------------------------------------------- whole positions and histories

  lemma NoopOne(m: EventMigration, ctx: Context, e: Event, done: Migrated)
    requires Implements(m, NoopSimulation()) && ApplyEvent(done.src, e, ctx.position).Ok?
    requires ReplayEvents(done.dst, DropNoops([e]), ctx.position).Ok?
    ensures MigrateOne(m, ctx, e, done) == Ok(Migrated(
      done.events + DropNoops([e]), ApplyEvent(done.src, e, ctx.position).value,
      ReplayEvents(done.dst, DropNoops([e]), ctx.position).value))
  {
    hide Step, IsNoop, ReplayEvents;
    AppliedIsWellFormed(done.src, e, ctx.position);
  }

  lemma {:induction false} NoopQueue(
    m: EventMigration, pos: Position, status: map<Fqid, ModelStatus>, queue: seq<Event>, src: Models, dst: Models)
    requires Implements(m, NoopSimulation()) && ReplayEvents(src, queue, pos).Ok?
    requires ReplayEvents(dst, DropNoops(queue), pos).Ok?
    ensures MigrateQueue(m, pos, status, queue, src, dst) == Ok(Migrated(
      DropNoops(queue), ReplayEvents(src, queue, pos).value, ReplayEvents(dst, DropNoops(queue), pos).value))
    decreases |queue|
  {
    hide ApplyEvent, IsNoop, Implements, MigrateOne;
    if queue != [] {
      var n := |queue| - 1;
      var seen, e := queue[..n], queue[n];
      assert queue == seen + [e];
      DropNoopsConcat(seen, [e]);
      ReplayConcat(dst, DropNoops(seen), DropNoops([e]), pos);
      NoopQueue(m, pos, status, seen, src, dst);
      NoopOne(m, Context(pos, status, seen), e, MigrateQueue(m, pos, status, seen, src, dst).value);
    }
  }

  lemma NoopPosition(m: EventMigration, pos: Position, es: seq<Event>, src: Models, dst: Models)
    requires Implements(m, NoopSimulation()) && ReplayEvents(src, es, pos).Ok?
    requires ReplayEvents(dst, DropNoops(CreatesFirst(es)), pos).Ok?
    ensures ReplayEvents(src, CreatesFirst(es), pos) == ReplayEvents(src, es, pos)
    ensures var done := MigrateEvents(m, pos, es, src, dst);
      && done.Ok? && done.value.events == DropNoops(CreatesFirst(es))
      && Ok(done.value.dst) == ReplayEvents(dst, DropNoops(CreatesFirst(es)), pos)
  {
    hide Creates, Others, StatusAfter, ApplyEvent, DropNoops;
    CreatesFirstKeepsReplay(src, es, pos);
    NoopQueue(m, pos, StatusAfter(es), CreatesFirst(es), src, dst);
    assert DropNoops(CreatesFirst(es)) + [] == DropNoops(CreatesFirst(es));
  }

  /** During the migration of the `j`-th position, before and after every event, the models are the same. */
  ghost predicate SameDuring(s: Source, mi: int, j: nat)
    requires 1 <= j && s.Has(mi, j) && s.Has(mi + 1, j)
  {
    && Evs(s, mi, j).Ok? && ModelsAt(s, mi, j - 1).Ok? && ModelsAt(s, mi + 1, j - 1).Ok?
    && SameAlong(
         ModelsAt(s, mi, j - 1).value, ModelsAt(s, mi + 1, j - 1).value, CreatesFirst(Evs(s, mi, j).value), s.ps[j - 1])
  }

  /** Every event of the position that is dropped goes unnoticed on the model as it was. */
  ghost predicate UnnoticedDuring(s: Source, mi: int, j: nat)
    requires 1 <= j && s.Has(mi, j)
  {
    && Evs(s, mi, j).Ok? && ModelsAt(s, mi, j - 1).Ok?
    && UnnoticedAlong(ModelsAt(s, mi, j - 1).value, CreatesFirst(Evs(s, mi, j).value), s.ps[j - 1])
  }

  lemma DuringSame(s: Source, mi: int, j: nat)
    requires 1 <= j && s.Has(mi, j) && s.Has(mi + 1, j) && s.base <= mi
    requires Implements(s.migs[mi - 1], NoopSimulation()) && ModelsAt(s, mi, j).Ok?
    requires ModelsAt(s, mi, j - 1).Ok? && ModelsAt(s, mi + 1, j - 1).Ok?
    requires RowsOk(ModelsAt(s, mi, j - 1).value)
    requires SameApart(ModelsAt(s, mi, j - 1).value, ModelsAt(s, mi + 1, j - 1).value)
    ensures SameDuring(s, mi, j) <==> UnnoticedDuring(s, mi, j)
    ensures SameDuring(s, mi, j) ==>
      && ModelsAt(s, mi + 1, j).Ok? && SameApart(ModelsAt(s, mi, j).value, ModelsAt(s, mi + 1, j).value)
      && Evs(s, mi + 1, j) == Ok(DropNoops(CreatesFirst(Evs(s, mi, j).value)))
  {
    hide SameApart, RowsOk, CreatesFirst, ReplayEvents, UnnoticedAt, MigrateEvents, Implements, DropNoops, IsNoop;
    var src, dst := ModelsAt(s, mi, j - 1).value, ModelsAt(s, mi + 1, j - 1).value;
    var es, pos := Evs(s, mi, j).value, s.ps[j - 1];
    var queue := CreatesFirst(es);
    CreatesFirstKeepsReplay(src, es, pos);
    assert queue[..|queue|] == queue;
    QueueSame(src, dst, queue, pos, |queue|);
    if SameDuring(s, mi, j) {
      assert SameUpTo(src, dst, queue, |queue|, pos);
      NoopPosition(s.migs[mi - 1], pos, es, src, dst);
      StepUp(s, mi, j);
    }
  }

  lemma {:induction false} ModelsRowsOk(s: Source, mi: int, k: nat)
    requires s.Has(mi, k) && ModelsAt(s, mi, k).Ok?
    ensures RowsOk(ModelsAt(s, mi, k).value)
    decreases k
  {
    hide Evs, ReplayEvents, RowOk;
    if k > 0 {
      ModelsRowsOk(s, mi, k - 1);
      ReplayKeepsRowsOk(ModelsAt(s, mi, k - 1).value, Evs(s, mi, k).value, s.ps[k - 1]);
    }
  }

  ghost predicate SameThroughout(s: Source, mi: int, k: nat)
    requires s.Has(mi, k) && s.Has(mi + 1, k)
  {
    forall j: nat | 1 <= j <= k :: SameDuring(s, mi, j)
  }

  ghost predicate UnnoticedThroughout(s: Source, mi: int, k: nat)
    requires s.Has(mi, k)
  {
    forall j: nat | 1 <= j <= k :: UnnoticedDuring(s, mi, j)
  }

  /**
   * A migration that changes nothing leaves the models of a history the same throughout, up to their
   * meta positions, if and only if every event that it drops goes unnoticed.
   */
  lemma {:induction false} NoopKeepsExactly(s: Source, mi: int, k: nat)
    requires s.Has(mi, k) && s.Has(mi + 1, k)
    requires Implements(s.migs[mi - 1], NoopSimulation()) && ModelsAt(s, mi, k).Ok?
    ensures SameThroughout(s, mi, k) <==> UnnoticedThroughout(s, mi, k)
    ensures UnnoticedThroughout(s, mi, k) ==>
      && ModelsAt(s, mi + 1, k).Ok? && SameApart(ModelsAt(s, mi, k).value, ModelsAt(s, mi + 1, k).value)
      && NoNoops(s, mi + 1, k)
    decreases k
  {
    hide SameDuring, UnnoticedDuring, Implements, Evs, RowsOk, SameApart, ReplayEvents, IsNoop;
    if k > 0 {
      ModelsPrefix(s, mi, k - 1, k);
      NoopKeepsExactly(s, mi, k - 1);
      ModelsRowsOk(s, mi, k - 1);
      if UnnoticedThroughout(s, mi, k - 1) {
        DuringSame(s, mi, k);
      }
      assert SameThroughout(s, mi, k) <==> SameThroughout(s, mi, k - 1) && SameDuring(s, mi, k);
      assert UnnoticedThroughout(s, mi, k) <==> UnnoticedThroughout(s, mi, k - 1) && UnnoticedDuring(s, mi, k);
    } else {
      NothingSame();
    }
  }

  lemma NothingSame()
    ensures SameApart(map[], map[])
  {}

  /** Further migrations that change nothing then have nothing left to drop. */
  lemma NoopsKeepExactly(s: Source, mi: int, target: int, k: nat)
    requires s.Has(mi, k) && s.Has(target, k) && mi < target && Ascending(s.ps)
    requires forall j | mi - 1 <= j < target - 1 :: Implements(s.migs[j], NoopSimulation())
    requires ModelsAt(s, mi, k).Ok? && UnnoticedThroughout(s, mi, k)
    ensures ModelsAt(s, target, k).Ok? && SameApart(ModelsAt(s, mi, k).value, ModelsAt(s, target, k).value)
  {
    hide ModelsAt, Evs, NoNoops, Implements, UnnoticedThroughout, SameThroughout, SameApart, Ascending;
    NoopKeepsExactly(s, mi, k);
    NoopsKeepModels(s, mi + 1, target, k);
  }

  /** A model, and a list update that gives it an empty list. */
  function EmptyListAdded(f: Fqid): Source {
    Source(1, [1, 2], [[Create(f, map[])], [ListUpdate(f, map["x" := []], map[])]], [NoopMigration()])
  }

  /** The case does occur: the list is there before the migration, and missing after it. */
  lemma EmptyListIsLost(f: Fqid)
    ensures var s := EmptyListAdded(f);
      && ModelsAt(s, 1, 2).Ok? && f in ModelsAt(s, 1, 2).value && "x" in ModelsAt(s, 1, 2).value[f].data
      && ModelsAt(s, 2, 2).Ok? && f in ModelsAt(s, 2, 2).value && "x" !in ModelsAt(s, 2, 2).value[f].data
  {
    hide MigrateEvents, ReplayEvents, CreatesFirst, DropNoops;
    var s := EmptyListAdded(f);
    EmptyListReplays(f);
    BaseModels(s, 2);
    NoopSound();
    assert ModelsAt(s, 2, 0) == ModelsAt(s, 1, 0) == Ok(map[]);
    NoopPosition(NoopMigration(), 1, s.hist[0], map[], map[]);
    StepUp(s, 1, 1);
    NoopPosition(NoopMigration(), 2, s.hist[1], ModelsAt(s, 1, 1).value, ModelsAt(s, 2, 1).value);
    StepUp(s, 1, 2);
  }

  lemma QueueOfOne(e: Event)
    ensures CreatesFirst([e]) == [e] && DropNoops([e]) == if IsNoop(e) then [] else [e]
  {
    hide IsNoop, Creates, Others;
    PartsOfOne(e);
    assert [e][1..] == [];
    assert Creates([e]) + Others([e]) == [e];
  }

  lemma EmptyListReplays(f: Fqid)
    ensures var create, add := [Create(f, map[])], [ListUpdate(f, map["x" := []], map[])];
      && DropNoops(CreatesFirst(create)) == create && DropNoops(CreatesFirst(add)) == []
      && var a := ReplayEvents(map[], create, 1);
      && a.Ok? && f in a.value && "x" !in a.value[f].data && ReplayEvents(a.value, [], 2) == a
      && var b := ReplayEvents(a.value, add, 2);
      && b.Ok? && f in b.value && "x" in b.value[f].data
  {
    hide DropNoops, CreatesFirst, IsReserved;
    MetaFieldsAreReserved();
    XIsUnreserved();
    var create, add := [Create(f, map[])], [ListUpdate(f, map["x" := []], map[])];
    var start: Models := map[];
    QueueOfOne(create[0]);
    QueueOfOne(add[0]);
    ReplayOne(start, create[0], 1);
    var a := ReplayEvents(start, create, 1).value;
    ReplayOne(a, add[0], 2);
    assert ListValue(a[f].data[META_POSITION := Int(2)], add[0].add, map[], "x") == Some([]);
  }

  lemma XIsUnreserved()
    ensures !IsReserved("x")
  {}
}
