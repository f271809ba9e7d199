/** What the tables satisfy between any two transactions: the cores put together. */
module Datastores {
  import opened Types
  import opened Tables
  import opened EventMigrations
  import opened Staircase
  import opened EventMigraters
  import opened Backend

  /** The index of all positions; -1 stands for none. */
  function BaseIndex(rows: seq<PositionRow>): int { if rows == [] then -1 else rows[0].migrationIndex }

  ghost function SourceOf(db: Database): Source
    reads db
  {
    Source(BaseIndex(db.positions), PositionsOf(db.positions), db.history, db.migrations)
  }

  predicate IndexAllowed(mi: int) { mi == -1 || mi >= 1 }

  ghost predicate MigrationOk(db: Database)
    reads db
  {
    && Uniform(db.positions, BaseIndex(db.positions)) && IndexAllowed(BaseIndex(db.positions))
    && EngineOk(SourceOf(db), db.migrationPositions, db.migrationEvents, db.keyframes)
    && IdsBelow(db.migrationEvents, db.migrationEventSeq)
  }

  /** The invariant of all runs. */
  ghost predicate DatastoreOk(db: Database)
    reads db
  {
    StoreOk(db) && MigrationOk(db)
  }

  lemma NewDatastore(db: Database)
    requires db.positions == [] && db.positionSeq == 0 && db.history == []
    requires db.events == map[] && db.eventSeq == 1 && db.models == map[] && db.idSequences == map[]
    requires db.collectionfields == map[] && db.links == {} && db.indexedFrom == 0
    requires db.migrationPositions == map[] && db.migrationEvents == map[] && db.keyframes == map[]
    ensures DatastoreOk(db)
  {
    CleanEngine(SourceOf(db));
  }

  /** A datastore without positions has no migration data. */
  lemma EmptyIsClean(s: Source, mp: MigrationPositions, mev: EventTable, frames: Frames)
    requires EngineOk(s, mp, mev, frames) && s.ps == []
    ensures mp == map[] && mev == map[] && frames == map[]
  {
    assert forall p | p in mp :: p in s.ps;
  }

  lemma NothingMigrated(s: Source, mp: MigrationPositions, mev: EventTable, frames: Frames)
    requires EngineOk(s, mp, mev, frames) && mp == map[]
    ensures mev == map[] && frames == map[]
  {
    assert forall i, mi | 0 <= i < |s.ps| :: !OnStair(s, mp, i, mi);
    forall key: (Position, int) | key.0 in s.ps
      ensures key !in frames
    {
      var i :| 0 <= i < |s.ps| && s.ps[i] == key.0;
      assert key == (s.ps[i], key.1);
      assert !OnStair(s, mp, i, key.1);
    }
    assert forall key | key in frames :: key.0 in s.ps;
  }

  /** Without an index there is no migration data. */
  lemma UnindexedIsClean(s: Source, mp: MigrationPositions, mev: EventTable, frames: Frames)
    requires EngineOk(s, mp, mev, frames) && s.base < 1
    ensures mp == map[] && mev == map[] && frames == map[]
  {
    assert forall p | p in mp :: 1 <= s.base;
    assert mp == map[];
    NothingMigrated(s, mp, mev, frames);
  }

  /** Other migrations can be run with, as long as those that were used are among them. */
  lemma AdoptMigrations(s: Source, t: Source, mp: MigrationPositions, mev: EventTable, frames: Frames)
    requires EngineOk(s, mp, mev, frames) && t == s.(migs := t.migs)
    requires mp == map[] || (Agreeing(s.migs, t.migs) && forall p | p in mp :: mp[p] <= |t.migs| + 1)
    ensures EngineOk(t, mp, mev, frames)
  {
    hide EngineOk, Agreeing;
    if mp == map[] {
      NothingMigrated(s, mp, mev, frames);
      assert SourceOk(t) by { EngineSource(s, mp, mev, frames); }
      CleanEngine(t);
    } else {
      OtherMigrationsKeepEngine(s, t, mp, mev, frames);
    }
  }

  lemma EngineSource(s: Source, mp: MigrationPositions, mev: EventTable, frames: Frames)
    requires EngineOk(s, mp, mev, frames)
    ensures SourceOk(s)
  {}

  /** A new position with the current index leaves the migration tables right. */
  lemma AppendKeepsMigration(
    s: Source, t: Source, mp: MigrationPositions, mev: EventTable, frames: Frames)
    requires EngineOk(s, mp, mev, frames) && SourceOk(t)
    requires |t.ps| == |s.ps| + 1 && s.ps == t.ps[..|s.ps|] && s.hist == t.hist[..|s.ps|]
    requires s.ps == [] || t.base == s.base
    requires t.migs == s.migs
    ensures EngineOk(t, mp, mev, frames)
  {
    hide EngineOk, Ascending;
    if s.ps == [] {
      EmptyIsClean(s, mp, mev, frames);
      CleanEngine(t);
    } else {
      EngineSource(s, mp, mev, frames);
      AppendKeepsEngine(s, t, mp, mev, frames);
    }
  }
}
