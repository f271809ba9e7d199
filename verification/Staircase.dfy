/** What every state of a cascade migration satisfies, as predicates over the migration tables. */
module Staircase {
  import opened Types
  import opened Replay
  import opened Tables
  import opened EventMigrations

  type MigrationPositions = map<Position, int>
  type Frames = map<(Position, int), Models>

  /** The effective migration index of the `i`-th position; the base index follows the last one. */
  function Effective(s: Source, mp: MigrationPositions, i: nat): int {
    if i < |s.ps| && s.ps[i] in mp then mp[s.ps[i]] else s.base
  }

  ghost predicate Falling(s: Source, mp: MigrationPositions) {
    forall i, j | 0 <= i <= j <= |s.ps| :: Effective(s, mp, j) <= Effective(s, mp, i)
  }

  predicate OnStair(s: Source, mp: MigrationPositions, i: nat, mi: int) {
    Effective(s, mp, i + 1) <= mi <= Effective(s, mp, i) && Effective(s, mp, i + 1) < Effective(s, mp, i)
  }

  /** The stored keyframes are exactly the stairs between neighbouring positions. */
  ghost predicate IsStaircase(s: Source, mp: MigrationPositions, frames: Frames) {
    && (forall key | key in frames :: key.0 in s.ps)
    && (forall i, mi | 0 <= i < |s.ps| :: (s.ps[i], mi) in frames <==> OnStair(s, mp, i, mi))
  }

  /** Every keyframe is the replay of the events at its index up to its position. */
  ghost predicate FramesReplay(s: Source, frames: Frames) {
    forall i, mi | 0 <= i < |s.ps| && (s.ps[i], mi) in frames ::
      s.Has(mi, i + 1) && ModelsAt(s, mi, i + 1) == Ok(frames[(s.ps[i], mi)])
  }

  /** The events of the `i`-th position have been migrated to `mi` and stand in the migration table. */
  ghost predicate EventsAt(s: Source, mev: EventTable, i: nat, mi: int) {
    && i < |s.ps| && s.Has(mi, i + 1) && ModelsAt(s, mi, i + 1).Ok? && Evs(s, mi, i + 1).Ok?
    && Holds(mev, s.ps[i], Evs(s, mi, i + 1).value)
  }

  ghost predicate EventsMigrated(s: Source, mp: MigrationPositions, mev: EventTable) {
    && (forall id | id in mev :: mev[id].position in mp)
    && (forall i | 0 <= i < |s.ps| && s.ps[i] in mp :: EventsAt(s, mev, i, mp[s.ps[i]]))
  }

  ghost predicate SourceOk(s: Source) {
    && |s.ps| == |s.hist| && Ascending(s.ps)
    && ReplayHistory(s.ps, s.hist, |s.ps|).Ok?
  }

  ghost predicate IndicesOk(s: Source, mp: MigrationPositions) {
    forall p | p in mp :: p in s.ps && 1 <= s.base < mp[p] <= |s.migs| + 1
  }

  ghost predicate EngineOk(s: Source, mp: MigrationPositions, mev: EventTable, frames: Frames) {
    && SourceOk(s) && IndicesOk(s, mp) && Falling(s, mp)
    && IsStaircase(s, mp, frames) && FramesReplay(s, frames)
    && EventsMigrated(s, mp, mev)
  }

  /** Without migration data nothing is demanded of the migrations. */
  lemma CleanEngine(s: Source)
    requires SourceOk(s)
    ensures EngineOk(s, map[], map[], map[])
  {}

  /** One position more, with the same index and migrations. */
  ghost predicate AppendedTo(s: Source, t: Source) {
    && |s.ps| == |s.hist| && |t.hist| == |t.ps| == |s.ps| + 1
    && s.ps == t.ps[..|s.ps|] && s.hist == t.hist[..|s.ps|] && t.base == s.base && t.migs == s.migs
  }

  /** A position appended at the base index leaves the engine as it was. */
  lemma AppendKeepsEngine(
    s: Source, t: Source, mp: MigrationPositions, mev: EventTable, frames: Frames)
    requires EngineOk(s, mp, mev, frames) && SourceOk(t) && AppendedTo(s, t)
    ensures EngineOk(t, mp, mev, frames)
  {
    hide IndicesOk, Falling, IsStaircase, FramesReplay, EventsMigrated, ReplayHistory;
    AppendKeepsStairs(s, t, mp, frames);
    AppendKeepsContents(s, t, mp, mev, frames);
  }

  lemma AppendedEffective(s: Source, t: Source, mp: MigrationPositions)
    requires AppendedTo(s, t) && Ascending(t.ps) && IndicesOk(s, mp)
    ensures forall i | 0 <= i <= |s.ps| :: Effective(t, mp, i) == Effective(s, mp, i)
    ensures Effective(t, mp, |t.ps|) == t.base == Effective(t, mp, |s.ps|)
    ensures forall i | 0 <= i < |s.ps| :: t.ps[i] == s.ps[i]
    ensures t.ps[|s.ps|] !in s.ps && t.ps[|s.ps|] !in mp && forall p | p in s.ps :: p in t.ps
  {
    assert forall i | 0 <= i < |s.ps| :: t.ps[i] == s.ps[i];
  }

  lemma AppendKeepsStairs(s: Source, t: Source, mp: MigrationPositions, frames: Frames)
    requires AppendedTo(s, t) && Ascending(t.ps)
    requires IndicesOk(s, mp) && Falling(s, mp) && IsStaircase(s, mp, frames)
    ensures IndicesOk(t, mp) && Falling(t, mp) && IsStaircase(t, mp, frames)
  {
    hide Ascending, Effective;
    var n := |s.ps|;
    AppendedEffective(s, t, mp);
    forall i, mi | 0 <= i < |t.ps|
      ensures (t.ps[i], mi) in frames <==> OnStair(t, mp, i, mi)
    {
      if i < n { assert (s.ps[i], mi) in frames <==> OnStair(s, mp, i, mi); }
    }
  }

  lemma AppendKeepsContents(s: Source, t: Source, mp: MigrationPositions, mev: EventTable, frames: Frames)
    requires AppendedTo(s, t) && Ascending(t.ps) && IndicesOk(s, mp) && IsStaircase(s, mp, frames)
    requires FramesReplay(s, frames) && EventsMigrated(s, mp, mev)
    ensures FramesReplay(t, frames) && EventsMigrated(t, mp, mev)
  {
    hide Evs, ModelsAt, Holds, Ascending, Effective;
    AppendedEffective(s, t, mp);
    forall k: nat, mi | 1 <= k && s.Has(mi, k)
      ensures t.Has(mi, k) && ModelsAt(s, mi, k) == ModelsAt(t, mi, k) && Evs(s, mi, k) == Evs(t, mi, k)
    {
      PrefixAgrees(s, t, mi, k);
      SourceFrame(s, t, mi, k);
    }
    forall i | 0 <= i < |t.ps| && t.ps[i] in mp
      ensures EventsAt(t, mev, i, mp[t.ps[i]])
    {
      assert i < |s.ps|;
      assert EventsAt(s, mev, i, mp[s.ps[i]]);
    }
  }

  lemma PrefixAgrees(s: Source, t: Source, mi: int, k: nat)
    requires s.Has(mi, k) && |t.ps| == |t.hist| && |s.ps| <= |t.ps| && k <= |s.ps|
    requires s.ps == t.ps[..|s.ps|] && s.hist == t.hist[..|s.hist|]
    requires t.base == s.base && s.migs <= t.migs
    ensures Agree(s, t, mi, k)
  {
    assert t.ps[..k] == t.ps[..|s.ps|][..k];
    assert t.hist[..k] == t.hist[..|s.hist|][..k];
  }

  /** Two lists of migrations that do not contradict each other. */
  ghost predicate Agreeing(migs: seq<EventMigration>, migs': seq<EventMigration>) {
    forall j | 0 <= j < |migs| && j < |migs'| :: migs[j] == migs'[j]
  }

  /** Other migrations may be registered, as long as those that have been used stay at their indices. */
  lemma OtherMigrationsKeepEngine(
    s: Source, t: Source, mp: MigrationPositions, mev: EventTable, frames: Frames)
    requires EngineOk(s, mp, mev, frames)
    requires t.ps == s.ps && t.hist == s.hist && t.base == s.base && Agreeing(s.migs, t.migs)
    requires forall p | p in mp :: mp[p] <= |t.migs| + 1
    ensures EngineOk(t, mp, mev, frames)
  {
    hide Evs, ModelsAt, Holds;
    assert forall i | 0 <= i <= |s.ps| :: Effective(t, mp, i) == Effective(s, mp, i);
    forall k: nat, mi | 1 <= k && s.Has(mi, k) && (mi == s.base || mi <= |t.migs| + 1)
      ensures t.Has(mi, k) && ModelsAt(s, mi, k) == ModelsAt(t, mi, k) && Evs(s, mi, k) == Evs(t, mi, k)
    {
      SourceFrame(s, t, mi, k);
    }
    SameStairs(s, t, mp, frames);
    forall i | 0 <= i < |t.ps| && t.ps[i] in mp
      ensures EventsAt(t, mev, i, mp[t.ps[i]])
    {
      assert EventsAt(s, mev, i, mp[s.ps[i]]);
    }
  }

  lemma SameStairs(s: Source, t: Source, mp: MigrationPositions, frames: Frames)
    requires SourceOk(s) && IndicesOk(s, mp) && IsStaircase(s, mp, frames) && FramesReplay(s, frames)
    requires t.ps == s.ps && t.hist == s.hist && t.base == s.base
    requires forall p | p in mp :: mp[p] <= |t.migs| + 1
    requires forall k: nat, mi | 1 <= k && s.Has(mi, k) && (mi == s.base || mi <= |t.migs| + 1) ::
      t.Has(mi, k) && ModelsAt(s, mi, k) == ModelsAt(t, mi, k)
    ensures IsStaircase(t, mp, frames) && FramesReplay(t, frames)
  {
    hide Evs, ModelsAt, ReplayHistory;
    assert forall i | 0 <= i <= |s.ps| :: Effective(t, mp, i) == Effective(s, mp, i);
    assert forall i, mi | 0 <= i < |s.ps| :: OnStair(t, mp, i, mi) == OnStair(s, mp, i, mi);
    forall i, mi | 0 <= i < |t.ps| && (t.ps[i], mi) in frames
      ensures t.Has(mi, i + 1) && ModelsAt(t, mi, i + 1) == Ok(frames[(t.ps[i], mi)])
    {
      assert OnStair(s, mp, i, mi);
      assert s.ps[i] in mp;
    }
  }

  /**
   * Cascade equals one shot: two runs over the same base, however they were interrupted, resumed or
   * extended, hold the same migrated events wherever they have reached the same index.
   */
  lemma CascadeEqualsOneShot(
    s: Source, mp: MigrationPositions, mev: EventTable, frames: Frames,
    mp': MigrationPositions, mev': EventTable, frames': Frames, i: nat, es: seq<Event>)
    requires EventsMigrated(s, mp, mev) && FramesReplay(s, frames)
    requires EventsMigrated(s, mp', mev') && FramesReplay(s, frames')
    requires i < |s.ps| && s.ps[i] in mp && s.ps[i] in mp' && mp[s.ps[i]] == mp'[s.ps[i]]
    ensures Holds(mev, s.ps[i], es) <==> Holds(mev', s.ps[i], es)
    ensures forall mi | (s.ps[i], mi) in frames && (s.ps[i], mi) in frames' ::
      frames[(s.ps[i], mi)] == frames'[(s.ps[i], mi)]
  {
    assert EventsAt(s, mev, i, mp[s.ps[i]]) && EventsAt(s, mev', i, mp[s.ps[i]]);
    var evs := Evs(s, mp[s.ps[i]], i + 1).value;
    if Holds(mev, s.ps[i], es) { HoldsUnique(mev, s.ps[i], es, evs); }
    if Holds(mev', s.ps[i], es) { HoldsUnique(mev', s.ps[i], es, evs); }
  }
}
