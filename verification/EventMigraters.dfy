/** The migration engine over the database: positions in ascending order, indices one by one. */
module EventMigraters {
  import opened Types
  import opened Replay
  import opened Tables
  import opened EventMigrations
  import opened Keyframes
  import opened EventMigrationRun
  import opened Staircase

  ghost predicate Uniform(rows: seq<PositionRow>, base: int) {
    forall i | 0 <= i < |rows| :: rows[i].migrationIndex == base
  }

  /**
   * The keyframes while the `i`-th position goes from `start` to `target` and has reached `mi`: the
   * stair before it is consumed from below, the stair after it grows.
   */
  predicate MidStair(s: Source, mp: MigrationPositions, i: nat, start: int, mi: int, target: int, j: int, x: int)
    requires 0 <= j
  {
    if j == i - 1 then mi < target && mi <= x <= target
    else if j == i then OnStair(s, mp, i, x) || start <= x < mi || (start < mi == target == x)
    else OnStair(s, mp, j, x)
  }

  ghost predicate MidFrames(
    s: Source, mp: MigrationPositions, frames: Frames, i: nat, start: int, mi: int, target: int)
  {
    && (forall key | key in frames :: key.0 in s.ps)
    && (forall j, x | 0 <= j < |s.ps| :: (s.ps[j], x) in frames <==> MidStair(s, mp, i, start, mi, target, j, x))
    && FramesReplay(s, frames)
  }

  /** The keyframe at index `mi` goes on to `next`, unless one is there already; position 0 has none. */
  function MovedFrames(frames: Frames, position: Position, next: Position, mi: int, models: Models): Frames {
    var others := frames - {(position, mi)};
    if (next, mi) in others then others else others[(next, mi) := models]
  }

  /** The keyframes after one index step. */
  function SteppedFrames(
    frames: Frames, position: Position, next: Position, mi: int, target: int, src: Models, dst: Models): Frames
  {
    var moved := MovedFrames(frames, position, next, mi, src);
    if mi + 1 == target then MovedFrames(moved, position, next, target, dst) else moved
  }

  /** What the accessors have written under their own keys goes along with the move. */
  lemma MovedWritten(
    frames: Frames, position: Position, next: Position, mi: int, src: Models, dst: Models)
    requires position != next
    ensures var written, moved := frames[(position, mi) := src], MovedFrames(frames, position, next, mi, src);
      && MovedFrames(written, position, next, mi, src) == moved
      && MovedFrames(written[(position, mi + 1) := dst], position, next, mi, src) == moved[(position, mi + 1) := dst]
      && MovedFrames(moved[(position, mi + 1) := dst], position, next, mi + 1, dst)
        == MovedFrames(moved, position, next, mi + 1, dst)
  {
    var written, moved := frames[(position, mi) := src], MovedFrames(frames, position, next, mi, src);
    assert written - {(position, mi)} == frames - {(position, mi)};
    assert written[(position, mi + 1) := dst] - {(position, mi)}
      == (frames - {(position, mi)})[(position, mi + 1) := dst];
    assert moved[(position, mi + 1) := dst] - {(position, mi + 1)} == moved - {(position, mi + 1)};
  }

  /** Which keyframes are there after an index step, and with which models. */
  lemma SteppedKey(
    frames: Frames, position: Position, next: Position, mi: int, target: int, src: Models, dst: Models,
    key: (Position, int))
    requires position != next && mi < target
    ensures var after := SteppedFrames(frames, position, next, mi, target, src, dst);
      && (key in after <==>
            && key != (position, mi) && (mi + 1 == target ==> key != (position, target))
            && (key in frames || key == (next, mi) || (mi + 1 == target && key == (next, target))))
      && (key in after ==>
            after[key] == if key in frames then frames[key] else if key == (next, mi) then src else dst)
  {
    var moved := MovedFrames(frames, position, next, mi, src);
    assert key in moved <==> key != (position, mi) && (key in frames || key == (next, mi));
    assert key in moved ==> moved[key] == if key in frames then frames[key] else src;
  }

  lemma SteppedStair(
    s: Source, mp: MigrationPositions, frames: Frames, i: nat, start: int, mi: int, target: int,
    position: Position, src: Models, dst: Models, j: nat, x: int)
    requires Ascending(s.ps) && i < |s.ps| && j < |s.ps| && Falling(s, mp)
    requires s.base <= start <= mi < target && start == Effective(s, mp, i)
    requires position == if i == 0 then 0 else s.ps[i - 1]
    requires i > 0 ==> Effective(s, mp, i - 1) == target
    requires (s.ps[j], x) in frames <==> MidStair(s, mp, i, start, mi, target, j, x)
    ensures (s.ps[j], x) in SteppedFrames(frames, position, s.ps[i], mi, target, src, dst)
      <==> MidStair(s, mp, i, start, mi + 1, target, j, x)
  {
    SteppedKey(frames, position, s.ps[i], mi, target, src, dst, (s.ps[j], x));
    assert Effective(s, mp, i + 1) <= start;
    assert s.ps[j] == s.ps[i] <==> j == i;
    assert s.ps[j] == position <==> j == i - 1;
  }

  lemma SteppedReplay(
    s: Source, frames: Frames, i: nat, mi: int, target: int, position: Position, src: Models, dst: Models,
    j: nat, x: int)
    requires Ascending(s.ps) && i < |s.ps| && j < |s.ps| && mi < target && position != s.ps[i]
    requires s.Has(mi, i + 1) && s.Has(mi + 1, i + 1)
    requires ModelsAt(s, mi, i + 1) == Ok(src) && ModelsAt(s, mi + 1, i + 1) == Ok(dst)
    requires (s.ps[j], x) in frames ==> s.Has(x, j + 1) && ModelsAt(s, x, j + 1) == Ok(frames[(s.ps[j], x)])
    ensures var after := SteppedFrames(frames, position, s.ps[i], mi, target, src, dst);
      (s.ps[j], x) in after ==> s.Has(x, j + 1) && ModelsAt(s, x, j + 1) == Ok(after[(s.ps[j], x)])
  {
    hide ModelsAt;
    SteppedKey(frames, position, s.ps[i], mi, target, src, dst, (s.ps[j], x));
    assert s.ps[j] == s.ps[i] ==> j == i;
  }

  lemma SteppedFramesAreMid(
    s: Source, mp: MigrationPositions, frames: Frames, i: nat, start: int, mi: int, target: int,
    position: Position, src: Models, dst: Models)
    requires SourceOk(s) && i < |s.ps| && Falling(s, mp)
    requires s.base <= start <= mi < target && start == Effective(s, mp, i)
    requires position == if i == 0 then 0 else s.ps[i - 1]
    requires i > 0 ==> Effective(s, mp, i - 1) == target
    requires MidFrames(s, mp, frames, i, start, mi, target)
    requires s.Has(mi, i + 1) && s.Has(mi + 1, i + 1)
    requires ModelsAt(s, mi, i + 1) == Ok(src) && ModelsAt(s, mi + 1, i + 1) == Ok(dst)
    ensures MidFrames(s, mp, SteppedFrames(frames, position, s.ps[i], mi, target, src, dst), i, start, mi + 1, target)
  {
    hide ModelsAt, SteppedFrames, MidStair, Falling, ReplayHistory;
    var after := SteppedFrames(frames, position, s.ps[i], mi, target, src, dst);
    forall j, x | 0 <= j < |s.ps|
      ensures (s.ps[j], x) in after <==> MidStair(s, mp, i, start, mi + 1, target, j, x)
    {
      SteppedStair(s, mp, frames, i, start, mi, target, position, src, dst, j, x);
    }
    forall j, x | 0 <= j < |s.ps| && (s.ps[j], x) in after
      ensures s.Has(x, j + 1) && ModelsAt(s, x, j + 1) == Ok(after[(s.ps[j], x)])
    {
      SteppedReplay(s, frames, i, mi, target, position, src, dst, j, x);
    }
    forall key | key in after
      ensures key.0 in s.ps
    {
      SteppedKey(frames, position, s.ps[i], mi, target, src, dst, key);
    }
  }

  /** The rows of all positions but `p` are the same. */
  ghost predicate OthersKept(t: EventTable, t': EventTable, p: Position) {
    && (forall id | id in t' && t'[id].position != p :: id in t && t'[id] == t[id])
    && (forall id | id in t && t[id].position != p :: id in t' && t'[id] == t[id])
  }

  /** The rows of the position are the first events, with the weights 1, 2, ..., and have these ids. */
  ghost predicate RowsAre(t: EventTable, p: Position, ids: seq<nat>, es: seq<Event>) {
    && |ids| <= |es|
    && (forall j | 0 <= j < |ids| :: ids[j] in t && t[ids[j]] == EventRow(p, j + 1, es[j]))
    && (forall id | id in t && t[id].position == p :: id in ids)
  }

  /** The rows with these ids, all of the position, have been overwritten as far as there are events. */
  ghost predicate Overwritten(t: EventTable, t': EventTable, p: Position, ids: seq<nat>, es: seq<Event>) {
    && (forall id :: id in ids <==> id in t && t[id].position == p) && t'.Keys == t.Keys
    && (forall i, j | 0 <= i < j < |ids| :: ids[i] != ids[j])
    && (forall j | 0 <= j < |ids| && j < |es| :: t'[ids[j]] == EventRow(p, j + 1, es[j]))
    && (forall id | id in t' && id !in ids :: t'[id] == t[id])
  }

  lemma AllOverwritten(t: EventTable, t': EventTable, p: Position, ids: seq<nat>, es: seq<Event>)
    requires Overwritten(t, t', p, ids, es) && |ids| <= |es|
    ensures RowsAre(t', p, ids, es) && OthersKept(t, t', p)
  {
    forall j | 0 <= j < |ids|
      ensures ids[j] in t'
    {
      assert ids[j] in ids && ids[j] in t.Keys;
    }
    assert forall id | id in t' :: id in t.Keys;
  }

  lemma RestDropped(t: EventTable, t': EventTable, p: Position, ids: seq<nat>, es: seq<Event>)
    requires Overwritten(t, t', p, ids, es) && |ids| > |es|
    ensures var rest := map id | id in t' && id !in ids[|es|..] :: t'[id];
      RowsAre(rest, p, ids[..|es|], es) && OthersKept(t, rest, p)
  {
    var kept, dropped := ids[..|es|], ids[|es|..];
    assert ids == kept + dropped;
    var rest := map id | id in t' && id !in dropped :: t'[id];
    forall j | 0 <= j < |kept|
      ensures kept[j] in rest && rest[kept[j]] == EventRow(p, j + 1, es[j])
    {
      assert kept[j] == ids[j] && ids[j] in ids && ids[j] in t.Keys;
    }
    assert forall id | id in t' :: id in t.Keys;
  }

  lemma RowAdded(t0: EventTable, t: EventTable, p: Position, ids: seq<nat>, es: seq<Event>, id: nat)
    requires RowsAre(t, p, ids, es) && |ids| < |es| && OthersKept(t0, t, p) && IdsBelow(t, id)
    ensures var t' := t[id := EventRow(p, |ids| + 1, es[|ids|])];
      RowsAre(t', p, ids + [id], es) && OthersKept(t0, t', p)
  {
    assert id !in t;
  }

  lemma RowsHold(t: EventTable, p: Position, ids: seq<nat>, es: seq<Event>)
    requires RowsAre(t, p, ids, es) && |ids| == |es|
    ensures Holds(t, p, es)
  {
    hide Holds;
    ListedHolds(t, p, ids, es);
  }

  lemma OthersKeptTransitive(t: EventTable, t': EventTable, t'': EventTable, p: Position)
    requires OthersKept(t, t', p) && OthersKept(t', t'', p)
    ensures OthersKept(t, t'', p)
  {}

  lemma EngineParts(s: Source, mp: MigrationPositions, mev: EventTable, frames: Frames)
    requires EngineOk(s, mp, mev, frames)
    ensures SourceOk(s) && IndicesOk(s, mp) && Falling(s, mp)
    ensures IsStaircase(s, mp, frames) && FramesReplay(s, frames) && EventsMigrated(s, mp, mev)
    ensures OthersKept(mev, mev, 0) && forall p :: OthersKept(mev, mev, p)
  {}

  lemma MidStart(s: Source, mp: MigrationPositions, mev: EventTable, frames: Frames, i: nat, target: int)
    requires EngineOk(s, mp, mev, frames) && i < |s.ps| && 1 <= s.base < target <= |s.migs| + 1
    requires Effective(s, mp, i) <= target
    requires i > 0 ==> Effective(s, mp, i - 1) == target
    ensures var start := Effective(s, mp, i);
      && MidFrames(s, mp, frames, i, start, start, target) && ModelsAt(s, start, i + 1).Ok?
      && (start != s.base ==> EventsAt(s, mev, i, start))
  {
    var start := Effective(s, mp, i);
    forall j, x | 0 <= j < |s.ps|
      ensures (s.ps[j], x) in frames <==> MidStair(s, mp, i, start, start, target, j, x)
    {
      assert (s.ps[j], x) in frames <==> OnStair(s, mp, j, x);
    }
    if s.ps[i] in mp {
      assert EventsAt(s, mev, i, mp[s.ps[i]]);
    } else {
      BaseModels(s, i + 1);
      HistoryPrefix(s.ps, s.hist, i + 1, |s.ps|);
    }
  }

  /** The keyframes an index step needs are there, and they are the replays up to the position before. */
  lemma BeforeIs(
    s: Source, mp: MigrationPositions, frames: Frames, i: nat, start: int, mi: int, position: Position)
    requires SourceOk(s) && i < |s.ps| && s.Has(mi, i + 1) && s.Has(mi + 1, i + 1)
    requires position == if i == 0 then 0 else s.ps[i - 1]
    requires mi < |s.migs| + 1
    requires MidFrames(s, mp, frames, i, start, mi, |s.migs| + 1)
    ensures i > 0 ==>
      && (position, mi) in frames && ModelsAt(s, mi, i) == Ok(frames[(position, mi)])
      && (position, mi + 1) in frames && ModelsAt(s, mi + 1, i) == Ok(frames[(position, mi + 1)])
    ensures i == 0 ==> forall x :: (position, x) !in frames
    ensures i == 0 ==> ModelsAt(s, mi, i) == ModelsAt(s, mi + 1, i) == Ok(map[])
  {
    if i > 0 {
      assert MidStair(s, mp, i, start, mi, |s.migs| + 1, i - 1, mi);
      assert MidStair(s, mp, i, start, mi, |s.migs| + 1, i - 1, mi + 1);
    }
  }

  /** The models an accessor over the position before starts with. */
  function Before(frames: Frames, position: Position, mi: int): Models
    requires position == 0 || (position, mi) in frames
  {
    if position == 0 then map[] else frames[(position, mi)]
  }

  /** What an index step yields, read off the chain of the source. */
  lemma StepPlan(
    s: Source, mp: MigrationPositions, frames: Frames, i: nat, start: int, mi: int, position: Position,
    events: seq<Event>)
    requires SourceOk(s) && i < |s.ps| && Falling(s, mp)
    requires 1 <= s.base <= start <= mi < |s.migs| + 1 && start == Effective(s, mp, i)
    requires position == if i == 0 then 0 else s.ps[i - 1]
    requires i > 0 ==> Effective(s, mp, i - 1) == |s.migs| + 1
    requires MidFrames(s, mp, frames, i, start, mi, |s.migs| + 1)
    requires ModelsAt(s, mi, i + 1).Ok? && Evs(s, mi, i + 1) == Ok(events)
    ensures position == 0 || ((position, mi) in frames && (position, mi + 1) in frames)
    ensures position == 0 ==> forall x :: (position, x) !in frames
    ensures match MigrateEvents(
        s.migs[mi - 1], s.ps[i], events, Before(frames, position, mi), Before(frames, position, mi + 1))
      case Err(error) => Evs(s, mi + 1, i + 1) == Err(error)
      case Ok(done) =>
        && Evs(s, mi + 1, i + 1) == Ok(done.events) && ModelsAt(s, mi + 1, i + 1).Ok?
        && MidFrames(s, mp, SteppedFrames(frames, position, s.ps[i], mi, |s.migs| + 1, done.src, done.dst),
             i, start, mi + 1, |s.migs| + 1)
  {
    hide Evs, ModelsAt, MigrateEvents, MidFrames, SteppedFrames;
    BeforeIs(s, mp, frames, i, start, mi, position);
    StepUp(s, mi, i + 1);
    var step := MigrateEvents(
      s.migs[mi - 1], s.ps[i], events, Before(frames, position, mi), Before(frames, position, mi + 1));
    if step.Ok? {
      SteppedFramesAreMid(s, mp, frames, i, start, mi, |s.migs| + 1, position, step.value.src, step.value.dst);
    }
  }

  lemma EventsToSelect(s: Source, events: EventTable, mev: EventTable, i: nat, mi: int) returns (es: seq<Event>)
    requires i < |s.ps| && s.Has(mi, i + 1) && HoldsHistory(events, s.ps, s.hist)
    requires ModelsAt(s, mi, i + 1).Ok?
    requires mi != s.base ==> EventsAt(s, mev, i, mi)
    ensures Evs(s, mi, i + 1) == Ok(es)
    ensures Holds(if mi != s.base then mev else events, s.ps[i], es)
  {
    es := Evs(s, mi, i + 1).value;
  }

  lemma MigratedEventsStand(s: Source, mev: EventTable, i: nat, mi: int)
    requires i < |s.ps| && s.Has(mi, i + 1) && ModelsAt(s, mi, i + 1).Ok? && Evs(s, mi, i + 1).Ok?
    requires Holds(mev, s.ps[i], Evs(s, mi, i + 1).value)
    ensures EventsAt(s, mev, i, mi)
  {}

  lemma {:induction false} ErrorRises(s: Source, mi: int, target: int, k: nat)
    requires 1 <= k && s.Has(mi, k) && s.Has(target, k) && mi <= target
    requires Evs(s, mi, k).Err?
    ensures Evs(s, target, k) == Err(Evs(s, mi, k).error)
    decreases target - mi
  {
    hide MigrateEvents, ModelsAt;
    if mi < target {
      ErrorRises(s, mi, target - 1, k);
    }
  }

  /** A failing index step fails the position. */
  lemma PositionFails(s: Source, mi: int, target: int, k: nat)
    requires 1 <= k && s.Has(mi, k) && s.Has(target, k) && mi <= target
    requires Evs(s, mi, k).Err? && ModelsAt(s, target, k - 1).Ok?
    ensures ModelsAt(s, target, k) == Err(Evs(s, mi, k).error)
  {
    ErrorRises(s, mi, target, k);
  }

  /** Up to a position that is about to be migrated the target models are there. */
  lemma TargetBefore(s: Source, mp: MigrationPositions, frames: Frames, i: nat, target: int)
    requires IsStaircase(s, mp, frames) && FramesReplay(s, frames)
    requires i < |s.ps| && s.Has(target, i) && Effective(s, mp, i) < target
    requires i > 0 ==> Effective(s, mp, i - 1) == target
    ensures ModelsAt(s, target, i).Ok?
  {
    if i > 0 { assert OnStair(s, mp, i - 1, target); }
  }

  lemma StairEnd(s: Source, mp: MigrationPositions, frames: Frames, i: nat, start: int, target: int)
    requires Ascending(s.ps) && IndicesOk(s, mp) && Falling(s, mp)
    requires i < |s.ps| && start == Effective(s, mp, i) <= target && 1 <= s.base < target <= |s.migs| + 1
    requires forall j | 0 <= j < i :: Effective(s, mp, j) == target
    requires forall key | key in frames :: key.0 in s.ps
    requires forall j, x | 0 <= j < |s.ps| ::
      (s.ps[j], x) in frames <==> MidStair(s, mp, i, start, target, target, j, x)
    ensures var mp' := mp[s.ps[i] := target];
      IndicesOk(s, mp') && Falling(s, mp') && IsStaircase(s, mp', frames)
  {
    var mp' := mp[s.ps[i] := target];
    assert forall j | 0 <= j <= |s.ps| :: Effective(s, mp', j) == if j == i then target else Effective(s, mp, j);
    forall j, x | 0 <= j < |s.ps|
      ensures (s.ps[j], x) in frames <==> OnStair(s, mp', j, x)
    {
      assert (s.ps[j], x) in frames <==> MidStair(s, mp, i, start, target, target, j, x);
      assert Effective(s, mp, i + 1) <= start;
    }
  }

  lemma EventsEnd(s: Source, mp: MigrationPositions, mev0: EventTable, mev: EventTable, i: nat, target: int)
    requires Ascending(s.ps) && EventsMigrated(s, mp, mev0)
    requires i < |s.ps| && EventsAt(s, mev, i, target) && OthersKept(mev0, mev, s.ps[i])
    ensures EventsMigrated(s, mp[s.ps[i] := target], mev)
  {
    var mp' := mp[s.ps[i] := target];
    forall j | 0 <= j < |s.ps| && s.ps[j] in mp'
      ensures EventsAt(s, mev, j, mp'[s.ps[j]])
    {
      if j != i {
        assert EventsAt(s, mev0, j, mp[s.ps[j]]);
        HoldsFrame(mev0, mev, s.ps[j], Evs(s, mp[s.ps[j]], j + 1).value);
      }
    }
  }

  lemma PositionDone(
    s: Source, mp: MigrationPositions, mev0: EventTable, mev: EventTable, frames0: Frames, frames: Frames,
    i: nat, start: int, target: int)
    requires EngineOk(s, mp, mev0, frames0)
    requires i < |s.ps| && start == Effective(s, mp, i) <= target && 1 <= s.base < target <= |s.migs| + 1
    requires forall j | 0 <= j < i :: Effective(s, mp, j) == target
    requires MidFrames(s, mp, frames, i, start, target, target)
    requires EventsAt(s, mev, i, target) && OthersKept(mev0, mev, s.ps[i])
    ensures EngineOk(s, mp[s.ps[i] := target], mev, frames)
  {
    hide Evs, ModelsAt;
    StairEnd(s, mp, frames, i, start, target);
    EventsEnd(s, mp, mev0, mev, i, target);
  }

  /** The first position with migration data below the target index, if any. */
  method MinMigratedBelow(mp: MigrationPositions, target: int) returns (min: Option<Position>)
    ensures min.None? ==> forall p | p in mp :: mp[p] >= target
    ensures min.Some? ==> min.value in mp && mp[min.value] < target
    ensures min.Some? ==> forall p | p in mp && mp[p] < target :: min.value <= p
  {
    min := None;
    var todo := mp.Keys;
    while todo != {}
      invariant todo <= mp.Keys
      invariant min.None? ==> forall p | p in mp && p !in todo :: mp[p] >= target
      invariant min.Some? ==> min.value in mp && mp[min.value] < target
      invariant min.Some? ==> forall p | p in mp && p !in todo && mp[p] < target :: min.value <= p
      decreases |todo|
    {
      var p := Pick(todo);
      todo := todo - {p};
      if mp[p] < target && (min.None? || p < min.value) {
        min := Some(p);
      }
    }
  }

  /** The last position with migration data, if any. */
  method MaxMigrated(mp: MigrationPositions) returns (max: Option<Position>)
    ensures max.None? <==> mp == map[]
    ensures max.Some? ==> max.value in mp && forall p | p in mp :: p <= max.value
  {
    max := None;
    var todo := mp.Keys;
    while todo != {}
      invariant todo <= mp.Keys
      invariant max.None? ==> todo == mp.Keys
      invariant max.Some? ==> max.value in mp && forall p | p in mp && p !in todo :: p <= max.value
      decreases |todo|
    {
      var p := Pick(todo);
      todo := todo - {p};
      if max.None? || p > max.value {
        max := Some(p);
      }
    }
  }

  ghost predicate Start(s: Source, mp: MigrationPositions, target: int, k: nat) {
    && k < |s.ps|
    && (forall j | 0 <= j < k :: Effective(s, mp, j) == target)
    && (Effective(s, mp, k) < target || (k == 0 && forall j | 0 <= j < |s.ps| :: Effective(s, mp, j) == target))
  }

  /** The lowest position that was migrated, but not far enough. */
  lemma StartBelow(s: Source, mp: MigrationPositions, k: nat)
    requires Ascending(s.ps) && IndicesOk(s, mp) && Falling(s, mp) && k < |s.ps|
    requires s.ps[k] in mp && mp[s.ps[k]] < |s.migs| + 1
    requires forall p | p in mp && mp[p] < |s.migs| + 1 :: s.ps[k] <= p
    ensures Start(s, mp, |s.migs| + 1, k)
  {
    forall j | 0 <= j < k
      ensures Effective(s, mp, j) == |s.migs| + 1
    {
      assert Effective(s, mp, k) <= Effective(s, mp, j);
    }
  }

  /** Everything migrated is at the target: go on after it, or anew if nothing is left. */
  lemma StartAfter(s: Source, mp: MigrationPositions, last: Position, k: nat)
    requires Ascending(s.ps) && IndicesOk(s, mp) && Falling(s, mp) && k < |s.ps|
    requires last in mp && forall p | p in mp :: p <= last && mp[p] >= |s.migs| + 1
    requires (s.ps[k] > last && forall j | 0 <= j < k :: s.ps[j] <= last)
      || (k == 0 && forall j | 0 <= j < |s.ps| :: s.ps[j] <= last)
    ensures Start(s, mp, |s.migs| + 1, k)
  {
    var l :| 0 <= l < |s.ps| && s.ps[l] == last;
    forall j | 0 <= j < |s.ps| && s.ps[j] <= last
      ensures Effective(s, mp, j) == |s.migs| + 1
    {
      assert j <= l;
      assert Effective(s, mp, l) <= Effective(s, mp, j);
    }
  }

  lemma FallingAt(s: Source, mp: MigrationPositions, i: nat)
    requires Falling(s, mp) && IndicesOk(s, mp) && i < |s.ps| && s.base <= |s.migs| + 1
    ensures i > 0 ==> Effective(s, mp, i) <= Effective(s, mp, i - 1)
    ensures Effective(s, mp, i) <= |s.migs| + 1
  {
    var p := s.ps[i];
    assert p in mp ==> mp[p] <= |s.migs| + 1;
  }

  lemma EffectiveUpdate(s: Source, mp: MigrationPositions, i: nat, target: int)
    requires Ascending(s.ps) && i < |s.ps|
    ensures forall j: nat | j <= |s.ps| ::
      Effective(s, mp[s.ps[i] := target], j) == if j == i then target else Effective(s, mp, j)
  {
    forall j: nat | j <= |s.ps|
      ensures Effective(s, mp[s.ps[i] := target], j) == if j == i then target else Effective(s, mp, j)
    {
      if j < |s.ps| {
        assert s.ps[j] == s.ps[i] <==> j == i;
      }
    }
  }

  ghost predicate AllAt(s: Source, mp: MigrationPositions, target: int) {
    forall i: nat | i < |s.ps| :: Effective(s, mp, i) == target
  }

  /** A run has brought the first positions to the target, and left the others at their indices. */
  ghost predicate Reached(s: Source, mp0: MigrationPositions, mp: MigrationPositions, reached: nat, target: int) {
    && reached <= |s.ps|
    && forall j: nat | j < |s.ps| :: Effective(s, mp, j) == if j < reached then target else Effective(s, mp0, j)
  }

  /** How many positions at the front are at the target already. */
  ghost function Leading(s: Source, mp: MigrationPositions, target: int, i: nat := 0): (k: nat)
    requires i <= |s.ps|
    ensures i <= k <= |s.ps| && forall j: nat | i <= j < k :: Effective(s, mp, j) == target
    ensures k < |s.ps| ==> Effective(s, mp, k) != target
    decreases |s.ps| - i
  {
    if i < |s.ps| && Effective(s, mp, i) == target then Leading(s, mp, target, i + 1) else i
  }

  /**
   * The next position cannot be migrated, or the run was interrupted after as many positions as it was
   * given, counted from the first one that is not at the target.
   */
  ghost predicate Failed(
    s: Source, mp0: MigrationPositions, target: int, reached: nat, stopAfter: nat, error: Error)
  {
    var start := Leading(s, mp0, target);
    || (reached < |s.ps| && reached < start + stopAfter && s.Has(target, reached + 1)
        && ModelsAt(s, target, reached + 1) == Err(error))
    || (error == Interrupted && start + stopAfter < |s.ps| && reached == start + stopAfter)
    || (error == Interrupted && start == |s.ps| == reached && stopAfter < |s.ps|)
  }

  lemma CutShort(s: Source, mp0: MigrationPositions, target: int, start: nat, reached: nat, i: nat)
    requires Start(s, mp0, target, start) && start <= i < |s.ps|
    requires reached == if AllAt(s, mp0, target) then |s.ps| else i
    ensures Failed(s, mp0, target, reached, i - start, Interrupted)
  {
    hide Effective;
    assert Effective(s, mp0, start) < target ==> Leading(s, mp0, target) == start;
  }

  lemma CannotMigrate(
    s: Source, mp0: MigrationPositions, target: int, start: nat, i: nat, stopAfter: nat, error: Error)
    requires Start(s, mp0, target, start) && start <= i < |s.ps| && i < start + stopAfter && !AllAt(s, mp0, target)
    requires s.Has(target, i + 1) && ModelsAt(s, target, i + 1) == Err(error)
    ensures Failed(s, mp0, target, i, stopAfter, error)
  {
    hide Effective, ModelsAt;
    assert Effective(s, mp0, start) < target ==> Leading(s, mp0, target) == start;
  }

  lemma NotInterrupted(s: Source, mp0: MigrationPositions, target: int, start: nat, stopAfter: nat)
    requires Start(s, mp0, target, start) && |s.ps| <= start + stopAfter
    ensures |s.ps| <= Leading(s, mp0, target) + stopAfter
  {
    hide Effective;
  }

  lemma NothingReached(s: Source, mp: MigrationPositions, target: int)
    ensures Reached(s, mp, mp, 0, target)
  {}

  /** What is known of the next position, and what its migration brings. */
  lemma ReachedNext(s: Source, mp0: MigrationPositions, mp: MigrationPositions, reached: nat, i: nat, target: int)
    requires Ascending(s.ps) && Reached(s, mp0, mp, reached, target) && i <= reached && i < |s.ps|
    requires reached == i || AllAt(s, mp0, target)
    ensures forall j: nat | j < i :: Effective(s, mp, j) == target
    ensures Effective(s, mp, i) == Effective(s, mp0, i) && (reached != i ==> Effective(s, mp0, i) == target)
    ensures Reached(s, mp0, mp[s.ps[i] := target], if reached == i then i + 1 else reached, target)
  {
    EffectiveUpdate(s, mp, i, target);
    var mp', reached' := mp[s.ps[i] := target], if reached == i then i + 1 else reached;
    forall j: nat | j < |s.ps|
      ensures Effective(s, mp', j) == if j < reached' then target else Effective(s, mp0, j)
    {
      assert Effective(s, mp', j) == if j == i then target else Effective(s, mp, j);
      assert Effective(s, mp, j) == if j < reached then target else Effective(s, mp0, j);
    }
  }

  /** A position at the target index has been migrated without an error. */
  lemma AtTarget(s: Source, mp: MigrationPositions, mev: EventTable, i: nat)
    requires EventsMigrated(s, mp, mev) && i < |s.ps| && s.base < Effective(s, mp, i)
    ensures s.Has(Effective(s, mp, i), i + 1) && ModelsAt(s, Effective(s, mp, i), i + 1).Ok?
  {
    assert EventsAt(s, mev, i, mp[s.ps[i]]);
  }

  lemma StartReaches(s: Source, mp: MigrationPositions, k: nat) returns (reached: nat)
    requires Start(s, mp, |s.migs| + 1, k)
    ensures reached == if AllAt(s, mp, |s.migs| + 1) then |s.ps| else k
    ensures k <= reached <= |s.ps| && Reached(s, mp, mp, reached, |s.migs| + 1)
  {
    reached := if Effective(s, mp, k) < |s.migs| + 1 then k else |s.ps|;
  }

  lemma StartFresh(s: Source, mp: MigrationPositions)
    requires mp == map[] && |s.ps| > 0 && s.base < |s.migs| + 1
    ensures Start(s, mp, |s.migs| + 1, 0)
  {}

  ghost function Rank(rows: seq<PositionRow>, p: Position): (k: nat)
    requires exists k :: 0 <= k < |rows| && rows[k].position == p
    ensures k < |rows| && rows[k].position == p
  {
    var k :| 0 <= k < |rows| && rows[k].position == p;
    k
  }

  /** `where position >= p order by position`: the index of the first such row. */
  method FirstRow(rows: seq<PositionRow>, p: Position) returns (k: nat)
    requires exists j :: 0 <= j < |rows| && rows[j].position >= p
    ensures k < |rows| && rows[k].position >= p && forall j | 0 <= j < k :: rows[j].position < p
  {
    k := 0;
    while k < |rows| && rows[k].position < p
      invariant k <= |rows| && forall j | 0 <= j < k :: rows[j].position < p
    {
      k := k + 1;
    }
  }

  lemma {:induction false} FirstAfterMeans(rows: seq<PositionRow>, p: Position)
    ensures FirstAfter(rows, p).None? ==> forall j | 0 <= j < |rows| :: rows[j].position <= p
    ensures FirstAfter(rows, p).Some? ==> exists k | 0 <= k < |rows| ::
      rows[k].position == FirstAfter(rows, p).value > p && forall j | 0 <= j < k :: rows[j].position <= p
  {
    if rows != [] && rows[0].position <= p {
      FirstAfterMeans(rows[1..], p);
      if FirstAfter(rows[1..], p).Some? {
        var k :| 0 <= k < |rows[1..]| && rows[1..][k].position == FirstAfter(rows, p).value > p
          && forall j | 0 <= j < k :: rows[1..][j].position <= p;
        assert rows[k + 1].position == FirstAfter(rows, p).value;
        assert forall j | 1 <= j < k + 1 :: rows[j] == rows[1..][j - 1];
      }
    }
  }

  class EventMigrater {
    const db: Database
    const migrations: seq<EventMigration>

    constructor (db: Database, migrations: seq<EventMigration>)
      ensures this.db == db && this.migrations == migrations
    {
      this.db, this.migrations := db, migrations;
    }

    function Target(): int { |migrations| + 1 }

    ghost predicate Runs(s: Source)
      reads this, db
    {
      && s == Source(s.base, PositionsOf(db.positions), db.history, migrations)
      && Uniform(db.positions, s.base) && 1 <= s.base < Target()
      && HoldsHistory(db.events, s.ps, s.hist)
      && IdsBelow(db.migrationEvents, db.migrationEventSeq)
    }

    ghost predicate Engine(s: Source)
      reads this, db
    {
      Runs(s) && EngineOk(s, db.migrationPositions, db.migrationEvents, db.keyframes)
    }

    function GetMigrationIndex(row: PositionRow): int
      reads db
    {
      if row.position in db.migrationPositions then db.migrationPositions[row.position] else row.migrationIndex
    }

    /** The first loop of the diff: the common part of the old rows is overwritten. */
    method OverwriteRows(ids: seq<nat>, newEvents: seq<Event>, position: Position, count: nat)
      requires count <= |ids| && count <= |newEvents|
      requires forall id | id in ids :: id in db.migrationEvents
      requires forall i, j | 0 <= i < j < |ids| :: ids[i] != ids[j]
      modifies db`migrationEvents
      ensures db.migrationEvents.Keys == old(db.migrationEvents).Keys
      ensures forall j | 0 <= j < count :: db.migrationEvents[ids[j]] == EventRow(position, j + 1, newEvents[j])
      ensures forall id | id in db.migrationEvents && id !in ids ::
        db.migrationEvents[id] == old(db.migrationEvents)[id]
    {
      for i := 0 to count
        invariant db.migrationEvents.Keys == old(db.migrationEvents).Keys
        invariant forall j | 0 <= j < i :: db.migrationEvents[ids[j]] == EventRow(position, j + 1, newEvents[j])
        invariant forall id | id in db.migrationEvents && id !in ids ::
          db.migrationEvents[id] == old(db.migrationEvents)[id]
      {
        db.migrationEvents := db.migrationEvents[ids[i] := EventRow(position, i + 1, newEvents[i])];
      }
    }

    /**
     * The diff of `write_new_events`: whatever order the ids come in, the position then reads as the
     * new events, and no other position is touched.
     */
    method WriteNewEvents(newEvents: seq<Event>, position: Position)
      requires IdsBelow(db.migrationEvents, db.migrationEventSeq)
      modifies db`migrationEvents, db`migrationEventSeq
      ensures IdsBelow(db.migrationEvents, db.migrationEventSeq) && db.migrationEventSeq >= old(db.migrationEventSeq)
      ensures Holds(db.migrationEvents, position, newEvents)
      ensures OthersKept(old(db.migrationEvents), db.migrationEvents, position)
    {
      hide Holds, RowsAre, OthersKept;
      var ids := SelectIds(db.migrationEvents, position);
      ghost var listed, t0 := ids, db.migrationEvents;
      var common := if |ids| < |newEvents| then |ids| else |newEvents|;
      OverwriteRows(ids, newEvents, position, common);
      if |ids| > |newEvents| {
        RestDropped(t0, db.migrationEvents, position, ids, newEvents);
        db.migrationEvents := map id | id in db.migrationEvents && id !in ids[|newEvents|..] :: db.migrationEvents[id];
        listed := ids[..|newEvents|];
      } else {
        AllOverwritten(t0, db.migrationEvents, position, ids, newEvents);
      }
      for i := common to |newEvents|
        invariant |listed| == i && db.migrationEventSeq >= old(db.migrationEventSeq)
        invariant IdsBelow(db.migrationEvents, db.migrationEventSeq)
        invariant RowsAre(db.migrationEvents, position, listed, newEvents)
        invariant OthersKept(t0, db.migrationEvents, position)
      {
        RowAdded(t0, db.migrationEvents, position, listed, newEvents, db.migrationEventSeq);
        db.migrationEvents := db.migrationEvents[db.migrationEventSeq := EventRow(position, i + 1, newEvents[i])];
        listed := listed + [db.migrationEventSeq];
        db.migrationEventSeq := db.migrationEventSeq + 1;
      }
      RowsHold(db.migrationEvents, position, listed, newEvents);
    }

    /** The accessors of one index step; a missing keyframe is a coding error. */
    method GetAccessors(lastPosition: Position, mi: int, position: Position)
      returns (r: Result<(KeyframeModifier, KeyframeModifier)>)
      ensures r.Ok? <==>
        lastPosition == 0 || ((lastPosition, mi) in db.keyframes && (lastPosition, mi + 1) in db.keyframes)
      ensures r.Err? ==> r.error == BadCoding
      ensures r.Ok? ==>
        var src, dst := r.value.0, r.value.1;
        && fresh(src) && fresh(dst) && src != dst && src.db == dst.db == db && src.Valid() && dst.Valid()
        && src.position == dst.position == lastPosition && src.nextPosition == dst.nextPosition == position
        && src.migrationIndex == mi && dst.migrationIndex == mi + 1
        && src.kind == (if lastPosition == 0 then Initial else Persistent)
        && dst.kind == (if lastPosition == 0 then Initial else if mi + 1 == Target() then Persistent else Overlay)
        && src.Contents() == (if lastPosition == 0 then map[] else db.keyframes[(lastPosition, mi)])
        && dst.Contents() == (if lastPosition == 0 then map[] else db.keyframes[(lastPosition, mi + 1)])
    {
      if lastPosition != 0 && ((lastPosition, mi) !in db.keyframes || (lastPosition, mi + 1) !in db.keyframes) {
        return Err(BadCoding);
      }
      var srcKind := if lastPosition == 0 then Initial else Persistent;
      var dstKind := if lastPosition == 0 then Initial else if mi + 1 == Target() then Persistent else Overlay;
      var src := new KeyframeModifier.Create(db, lastPosition, mi, position, srcKind);
      var dst := new KeyframeModifier.Create(db, lastPosition, mi + 1, position, dstKind);
      r := Ok((src, dst));
    }

    /** Moves the old accessor on; the new one moves only if this was the last index. */
    method MoveKeyframes(src: KeyframeModifier, dst: KeyframeModifier, ghost frames0: Frames)
      requires Separate(src, dst) && src.db == db && db.keyframes == Written(Written(frames0, src), dst)
      requires src.position == dst.position != src.nextPosition && dst.migrationIndex == src.migrationIndex + 1
      requires src.kind.Initial? ==> forall mi :: (src.position, mi) !in frames0
      requires !src.kind.Initial? ==> (src.position, src.migrationIndex) in frames0
      requires dst.kind.Overlay? ==> dst.migrationIndex != Target()
      requires dst.kind.Persistent? ==> dst.migrationIndex == Target()
      requires FirstAfter(db.positions, src.position) == Some(src.nextPosition)
      modifies db`keyframes
      ensures db.keyframes == SteppedFrames(
        frames0, src.position, src.nextPosition, src.migrationIndex, Target(), old(src.Contents()), old(dst.Contents()))
    {
      hide FirstAfter;
      MovedWritten(frames0, src.position, src.nextPosition, src.migrationIndex, src.Contents(), dst.Contents());
      if src.kind.Initial? {
        assert frames0 - {(src.position, src.migrationIndex)} == frames0;
      }
      var moved := src.MoveToNextPosition();
      if dst.migrationIndex == Target() {
        ghost var between := db.keyframes;
        moved := dst.MoveToNextPosition();
        if src.kind.Initial? {
          assert between - {(dst.position, dst.migrationIndex)} == between;
        }
      }
    }

    /** One index step of one position on given events: translate, write the diff, move the keyframes. */
    method MigrateIndex(row: PositionRow, mi: int, lastPosition: Position, events: seq<Event>)
      returns (r: Result<()>)
      requires 1 <= mi < Target() && lastPosition != row.position
      requires lastPosition != 0 ==> (lastPosition, mi) in db.keyframes && (lastPosition, mi + 1) in db.keyframes
      requires lastPosition == 0 ==> forall x :: (lastPosition, x) !in db.keyframes
      requires FirstAfter(db.positions, lastPosition) == Some(row.position)
      requires IdsBelow(db.migrationEvents, db.migrationEventSeq)
      modifies db`keyframes, db`migrationEvents, db`migrationEventSeq
      ensures IdsBelow(db.migrationEvents, db.migrationEventSeq) && db.migrationEventSeq >= old(db.migrationEventSeq)
      ensures match MigrateEvents(
        migrations[mi - 1], row.position, events,
        Before(old(db.keyframes), lastPosition, mi), Before(old(db.keyframes), lastPosition, mi + 1))
        case Err(error) => r == Err(error)
        case Ok(done) =>
          && r.Ok? && Holds(db.migrationEvents, row.position, done.events)
          && db.keyframes == SteppedFrames(
               old(db.keyframes), lastPosition, row.position, mi, Target(), done.src, done.dst)
      ensures OthersKept(old(db.migrationEvents), db.migrationEvents, row.position)
    {
      ghost var frames0 := db.keyframes;
      var accessors := GetAccessors(lastPosition, mi, row.position);
      var src, dst := accessors.value.0, accessors.value.1;
      assert db.keyframes == Written(Written(frames0, src), dst);
      var newEvents := RunMigration(migrations[mi - 1], events, src, dst, frames0);
      if newEvents.Err? {
        return Err(newEvents.error);
      }
      WriteNewEvents(newEvents.value, row.position);
      MoveKeyframes(src, dst, frames0);
      r := Ok(());
    }

    /** One index step within the invariant of the position. */
    method MigrateToNextIndex(row: PositionRow, mi: int, lastPosition: Position, fromMigrationTable: bool,
      ghost s: Source, ghost i: nat, ghost start: int)
      returns (r: Result<()>)
      requires Runs(s) && SourceOk(s) && i < |s.ps| && row == db.positions[i]
      requires s.base <= start <= mi < Target() && start == Effective(s, db.migrationPositions, i)
      requires lastPosition == if i == 0 then 0 else s.ps[i - 1]
      requires i > 0 ==> Effective(s, db.migrationPositions, i - 1) == Target()
      requires Falling(s, db.migrationPositions)
      requires MidFrames(s, db.migrationPositions, db.keyframes, i, start, mi, Target())
      requires ModelsAt(s, mi, i + 1).Ok?
      requires fromMigrationTable <==> mi != s.base
      requires fromMigrationTable ==> EventsAt(s, db.migrationEvents, i, mi)
      modifies db`keyframes, db`migrationEvents, db`migrationEventSeq
      ensures IdsBelow(db.migrationEvents, db.migrationEventSeq) && db.migrationEventSeq >= old(db.migrationEventSeq)
      ensures OthersKept(old(db.migrationEvents), db.migrationEvents, row.position)
      ensures r.Ok? ==> MidFrames(s, db.migrationPositions, db.keyframes, i, start, mi + 1, Target())
      ensures r.Ok? ==> EventsAt(s, db.migrationEvents, i, mi + 1) && ModelsAt(s, mi + 1, i + 1).Ok?
      ensures r.Err? ==> Evs(s, mi + 1, i + 1) == Err(r.error)
    {
      hide Evs, ModelsAt, MigrateEvents, MidFrames, SteppedFrames, Holds, FramesReplay, HoldsHistory, Falling, EventsAt;
      ghost var expected := EventsToSelect(s, db.events, db.migrationEvents, i, mi);
      FirstAfterIs(db.positions, lastPosition, i);
      StepPlan(s, db.migrationPositions, db.keyframes, i, start, mi, lastPosition, expected);
      var events: seq<Event>;
      if fromMigrationTable {
        events := SelectEvents(db.migrationEvents, row.position, expected);
      } else {
        events := SelectEvents(db.events, row.position, expected);
      }
      r := MigrateIndex(row, mi, lastPosition, events);
      if r.Ok? {
        MigratedEventsStand(s, db.migrationEvents, i, mi + 1);
      }
    }

    /** All index steps of one position; then the position has the target index. */
    method MigratePosition(row: PositionRow, migrationIndex: int, lastPosition: Position,
      ghost s: Source, ghost i: nat)
      returns (r: Result<()>)
      requires Engine(s) && i < |s.ps| && row == db.positions[i]
      requires migrationIndex == Effective(s, db.migrationPositions, i) <= Target()
      requires lastPosition == if i == 0 then 0 else s.ps[i - 1]
      requires forall j | 0 <= j < i :: Effective(s, db.migrationPositions, j) == Target()
      modifies db`keyframes, db`migrationEvents, db`migrationEventSeq, db`migrationPositions
      ensures Runs(s) && db.migrationEventSeq >= old(db.migrationEventSeq)
      ensures r.Ok? <==> ModelsAt(s, Target(), i + 1).Ok?
      ensures r.Err? ==> ModelsAt(s, Target(), i + 1) == Err(r.error)
      ensures r.Ok? ==> Engine(s) && db.migrationPositions == old(db.migrationPositions)[row.position := Target()]
    {
      hide Evs, ModelsAt, MidFrames, EngineOk, HoldsHistory, Falling, EventsAt, OthersKept;
      ghost var mp, mev0, frames0 := db.migrationPositions, db.migrationEvents, db.keyframes;
      var fromMigrationTable := migrationIndex != row.migrationIndex;
      EngineParts(s, mp, mev0, frames0);
      MidStart(s, mp, mev0, frames0, i, Target());
      for mi := migrationIndex to Target()
        invariant Runs(s) && db.migrationPositions == mp && db.migrationEventSeq >= old(db.migrationEventSeq)
        invariant MidFrames(s, mp, db.keyframes, i, migrationIndex, mi, Target())
        invariant ModelsAt(s, mi, i + 1).Ok? && fromMigrationTable == (mi != s.base)
        invariant fromMigrationTable ==> EventsAt(s, db.migrationEvents, i, mi)
        invariant OthersKept(mev0, db.migrationEvents, row.position)
      {
        var mev := db.migrationEvents;
        var step := MigrateToNextIndex(row, mi, lastPosition, fromMigrationTable, s, i, migrationIndex);
        if step.Err? {
          TargetBefore(s, mp, frames0, i, Target());
          PositionFails(s, mi + 1, Target(), i + 1);
          return step;
        }
        OthersKeptTransitive(mev0, mev, db.migrationEvents, row.position);
        // from the second step on, the events of the position are in the migration table
        fromMigrationTable := true;
      }
      db.migrationPositions := db.migrationPositions[row.position := Target()];
      PositionDone(s, mp, mev0, db.migrationEvents, frames0, db.keyframes, i, migrationIndex, Target());
      r := Ok(());
    }

    /** The choice of the start position: everything before it is at the target index already. */
    method FirstToMigrate(ghost s: Source) returns (start: nat)
      requires Runs(s) && SourceOk(s) && IndicesOk(s, db.migrationPositions) && Falling(s, db.migrationPositions)
      requires db.positions != [] && s.migs == migrations
      ensures Start(s, db.migrationPositions, Target(), start)
    {
      hide Start, Falling, HoldsHistory, IdsBelow, ReplayHistory;
      var minPosition := db.positions[0].position;    // the first one with an index below the target
      var min2 := MinMigratedBelow(db.migrationPositions, Target());
      if min2.None? {
        var last := MaxMigrated(db.migrationPositions);
        min2 := if last.None? then None else FirstAfter(db.positions, last.value);
        if last.Some? {
          FirstAfterMeans(db.positions, last.value);
          ghost var k: nat := if min2.None? then 0 else Rank(db.positions, min2.value);
          StartAfter(s, db.migrationPositions, last.value, k);
        } else {
          StartFresh(s, db.migrationPositions);
        }
      } else {
        StartBelow(s, db.migrationPositions, Rank(db.positions, min2.value));
      }
      if min2.Some? && min2.value > minPosition {
        minPosition := min2.value;
      }
      start := FirstRow(db.positions, minPosition);
    }

    /** The check for invalid indices: the lowest ones must not be negative; zero passes for one. */
    method CheckIndices(ghost s: Source) returns (r: Result<()>)
      requires Runs(s) && IndicesOk(s, db.migrationPositions)
      ensures r.Ok?
    {
      hide HoldsHistory, IdsBelow;
      for i := 0 to |db.positions| {
        if db.positions[i].migrationIndex < 0 {
          return Err(MismatchingMigrationIndices);
        }
      }
      var todo := db.migrationPositions.Keys;
      while todo != {}
        invariant todo <= db.migrationPositions.Keys
        decreases |todo|
      {
        var p := Pick(todo);
        todo := todo - {p};
        if db.migrationPositions[p] < 0 {
          return Err(MismatchingMigrationIndices);
        }
      }
      r := Ok(());
    }

    /** A position in a transaction of its own: on an error everything is as before. */
    method MigrateInTransaction(row: PositionRow, migrationIndex: int, lastPosition: Position,
      ghost s: Source, ghost i: nat)
      returns (r: Result<()>)
      requires Engine(s) && i < |s.ps| && row == db.positions[i]
      requires migrationIndex == Effective(s, db.migrationPositions, i) <= Target()
      requires lastPosition == if i == 0 then 0 else s.ps[i - 1]
      requires forall j | 0 <= j < i :: Effective(s, db.migrationPositions, j) == Target()
      modifies db`keyframes, db`migrationEvents, db`migrationEventSeq, db`migrationPositions
      ensures Engine(s)
      ensures r.Ok? ==> db.migrationPositions == old(db.migrationPositions)[row.position := Target()]
      ensures r.Err? ==> db.migrationPositions == old(db.migrationPositions)
      ensures r.Err? ==> db.keyframes == old(db.keyframes) && db.migrationEvents == old(db.migrationEvents)
      ensures r.Err? ==> ModelsAt(s, Target(), i + 1) == Err(r.error)
      ensures migrationIndex == Target() ==> r.Ok?
    {
      hide Evs, ModelsAt, EngineOk, EventsMigrated, Falling, IndicesOk, Effective, Ascending, IdsBelow, HoldsHistory;
      EngineIs(s);
      if migrationIndex == Target() {
        AtTarget(s, db.migrationPositions, db.migrationEvents, i);
      }
      var keyframes, events, migrated := db.keyframes, db.migrationEvents, db.migrationPositions;
      ghost var seqBefore := db.migrationEventSeq;
      r := MigratePosition(row, migrationIndex, lastPosition, s, i);
      if r.Err? {
        IdsStayBelow(events, seqBefore, db.migrationEventSeq);
        RollBack(keyframes, events, migrated, s);
      }
    }

    /** How far a run has come that is about to migrate the `i`-th position. */
    ghost function Done(s: Source, mp0: MigrationPositions, i: nat): nat {
      if AllAt(s, mp0, Target()) then |s.ps| else i
    }

    /** One turn of the loop, with the check for rising indices; it answers with the index it has found. */
    method MigrateNext(
      i: nat, lastPosition: Position, lastMigrationIndex: Option<int>, ghost s: Source, ghost mp0: MigrationPositions)
      returns (r: Result<int>)
      requires Engine(s) && i < |s.ps| && Falling(s, mp0) && IndicesOk(s, mp0)
      requires Reached(s, mp0, db.migrationPositions, Done(s, mp0, i), Target())
      requires lastPosition == if i == 0 then 0 else s.ps[i - 1]
      requires lastMigrationIndex == if i == 0 then None else Some(Effective(s, mp0, i - 1))
      modifies db`keyframes, db`migrationEvents, db`migrationEventSeq, db`migrationPositions
      ensures Engine(s)
      ensures r.Ok? ==>
        r.value == Effective(s, mp0, i) && Reached(s, mp0, db.migrationPositions, Done(s, mp0, i + 1), Target())
      ensures r.Err? ==> db.migrationPositions == old(db.migrationPositions) && !AllAt(s, mp0, Target())
      ensures r.Err? ==> s.Has(Target(), i + 1) && ModelsAt(s, Target(), i + 1) == Err(r.error)
    {
      hide Evs, ModelsAt, Engine, Runs, EngineOk, EventsMigrated, Falling, IndicesOk, Start, Ascending, IdsBelow;
      hide Reached, Effective, AllAt;
      EngineIs(s);
      FallingAt(s, mp0, i);
      ReachedNext(s, mp0, db.migrationPositions, Done(s, mp0, i), i, Target());
      var row := db.positions[i];
      var migrationIndex := GetMigrationIndex(row);
      // no position may be further than an earlier one
      if lastMigrationIndex.Some? && migrationIndex > lastMigrationIndex.value {
        return Err(MismatchingMigrationIndices);
      }
      var done := MigrateInTransaction(row, migrationIndex, lastPosition, s, i);
      r := if done.Ok? then Ok(migrationIndex) else Err(done.error);
    }

    /**
     * A run from the first position below the target to the last one; every position is a transaction
     * of its own. `stopAfter` is the number of transactions after which the process dies, if it does.
     * Neither the check for invalid indices nor the one for rising indices can fail.
     */
    method Migrate(stopAfter: nat, ghost s: Source) returns (r: Result<()>, ghost reached: nat)
      requires Engine(s)
      modifies db`keyframes, db`migrationEvents, db`migrationEventSeq, db`migrationPositions
      ensures Engine(s)
      ensures Reached(s, old(db.migrationPositions), db.migrationPositions, reached, Target())
      ensures r.Ok? ==> reached == |s.ps| <= Leading(s, old(db.migrationPositions), Target()) + stopAfter
      ensures r.Err? ==> Failed(s, old(db.migrationPositions), Target(), reached, stopAfter, r.error)
    {
      hide Evs, ModelsAt, Engine, Runs, EngineOk, EventsMigrated, Falling, IndicesOk, Start, Ascending, IdsBelow;
      hide Reached, Effective, Failed, AllAt, Leading;
      EngineIs(s);
      ghost var mp0 := db.migrationPositions;
      if db.positions == [] {
        NothingReached(s, mp0, Target());
        return Ok(()), 0;
      }
      var start := FirstToMigrate(s);
      reached := StartReaches(s, mp0, start);
      var lastPosition, lastMigrationIndex := 0, None;
      if start > 0 {
        lastPosition := db.positions[start - 1].position;
        lastMigrationIndex := Some(GetMigrationIndex(db.positions[start - 1]));
      }
      var checked := CheckIndices(s);
      if checked.Err? {
        return Err(MismatchingMigrationIndices), reached;
      }
      for i := start to |db.positions|
        invariant Engine(s) && |s.ps| == |db.positions| && i <= start + stopAfter
        invariant Reached(s, mp0, db.migrationPositions, reached, Target())
        invariant reached == Done(s, mp0, i)
        invariant lastPosition == if i == 0 then 0 else s.ps[i - 1]
        invariant lastMigrationIndex == if i == 0 then None else Some(Effective(s, mp0, i - 1))
      {
        if i - start == stopAfter {
          CutShort(s, mp0, Target(), start, reached, i);
          return Err(Interrupted), reached;
        }
        var next := MigrateNext(i, lastPosition, lastMigrationIndex, s, mp0);
        if next.Err? {
          CannotMigrate(s, mp0, Target(), start, i, stopAfter, next.error);
          return Err(next.error), reached;
        }
        if reached == i {
          reached := i + 1;
        }
        lastPosition := db.positions[i].position;
        lastMigrationIndex := Some(next.value);
      }
      NotInterrupted(s, mp0, Target(), start, stopAfter);
      r := Ok(());
    }

    lemma EngineIs(s: Source)
      requires Engine(s)
      ensures Runs(s) && EngineOk(s, db.migrationPositions, db.migrationEvents, db.keyframes)
      ensures SourceOk(s) && IndicesOk(s, db.migrationPositions) && Falling(s, db.migrationPositions)
      ensures EventsMigrated(s, db.migrationPositions, db.migrationEvents)
      ensures s.migs == migrations && 1 <= s.base < Target() && s.ps == PositionsOf(db.positions)
      ensures IdsBelow(db.migrationEvents, db.migrationEventSeq)
      ensures forall i | 0 <= i < |s.ps| ::
        && db.positions[i].position == s.ps[i]
        && GetMigrationIndex(db.positions[i]) == Effective(s, db.migrationPositions, i)
    {}

    method RollBack(keyframes: Frames, events: EventTable, migrated: MigrationPositions, ghost s: Source)
      requires Runs(s) && EngineOk(s, migrated, events, keyframes) && IdsBelow(events, db.migrationEventSeq)
      modifies db`keyframes, db`migrationEvents, db`migrationPositions
      ensures Engine(s)
      ensures db.keyframes == keyframes && db.migrationEvents == events && db.migrationPositions == migrated
    {
      hide EngineOk;
      db.keyframes, db.migrationEvents, db.migrationPositions := keyframes, events, migrated;
    }
  }
}
