/** The queries on positions that the writer, the migrations and the reader share. */
module ReadDatabases {
  import opened Types
  import opened Tables
  import opened EventMigraters

  class ReadDatabase {
    const db: Database

    constructor (db: Database)
      ensures this.db == db
    {
      this.db := db;
    }

    predicate IsEmpty()
      reads db
    {
      db.positions == []
    }

    /** The lowest and the highest index of the positions, which must be the same. */
    method GetCurrentMigrationIndex() returns (r: Result<int>)
      ensures db.positions == [] ==> r == Ok(-1)
      ensures db.positions != [] && Uniform(db.positions, db.positions[0].migrationIndex) ==>
        r == Ok(if db.positions[0].migrationIndex == 0 then -1 else db.positions[0].migrationIndex)
      ensures r.Err? <==> db.positions != [] && !Uniform(db.positions, db.positions[0].migrationIndex)
    {
      if db.positions == [] {
        return Ok(-1);
      }
      var min, max := db.positions[0].migrationIndex, db.positions[0].migrationIndex;
      for i := 0 to |db.positions|
        invariant forall j | 0 <= j < i :: min <= db.positions[j].migrationIndex <= max
        invariant exists j | 0 <= j < |db.positions| :: db.positions[j].migrationIndex == min
        invariant exists j | 0 <= j < |db.positions| :: db.positions[j].migrationIndex == max
        invariant min <= max
      {
        if db.positions[i].migrationIndex < min {
          min := db.positions[i].migrationIndex;
        }
        if db.positions[i].migrationIndex > max {
          max := db.positions[i].migrationIndex;
        }
      }
      if min != max {
        return Err(MismatchingMigrationIndices);
      }
      r := Ok(if max == 0 then -1 else max);
    }
  }
}
