/** Migration keyframes: the initial one, the persistent one in the database, and the overlay over it. */
module Keyframes {
  import opened Types
  import opened ListFields
  import opened Replay
  import opened Tables

  datatype Kind = Initial | Persistent | Overlay

  class KeyframeModifier {
    const db: Database
    const position: Position
    const migrationIndex: int
    const nextPosition: Position
    const kind: Kind
    var modelStore: Models    // the content of an initial keyframe, the changes of an overlay

    ghost predicate Valid()
      reads this, db`keyframes
    {
      kind.Initial? || (position, migrationIndex) in db.keyframes
    }

    /** The models an accessor answers with. */
    ghost function Contents(): Models
      requires Valid()
      reads this, db`keyframes
    {
      if kind.Initial? then modelStore
      else if kind.Persistent? then db.keyframes[(position, migrationIndex)]
      else db.keyframes[(position, migrationIndex)] + modelStore
    }

    constructor Create(db: Database, position: Position, migrationIndex: int, nextPosition: Position, kind: Kind)
      requires kind.Initial? || (position, migrationIndex) in db.keyframes
      ensures this.db == db && this.position == position && this.migrationIndex == migrationIndex
      ensures this.nextPosition == nextPosition && this.kind == kind && Valid()
      ensures Contents() == if kind.Initial? then map[] else db.keyframes[(position, migrationIndex)]
    {
      this.db, this.position, this.migrationIndex := db, position, migrationIndex;
      this.nextPosition, this.kind, modelStore := nextPosition, kind, map[];
    }

    /** `_fetch_model`: every kind answers with its contents. */
    method FetchModel(fqid: Fqid) returns (row: Option<ModelRow>)
      requires Valid()
      ensures row == Lookup(Contents(), fqid)
    {
      if !kind.Persistent? && fqid in modelStore {
        return Some(modelStore[fqid]);
      }
      if kind.Initial? {
        return None;
      }
      var stored := db.keyframes[(position, migrationIndex)];
      row := if fqid in stored then Some(stored[fqid]) else None;
    }

    /** Everything a migration can look up through this accessor. */
    method Snapshot() returns (contents: Models)
      requires Valid()
      ensures contents == Contents()
    {
      contents :=
        if kind.Initial? then modelStore
        else if kind.Persistent? then db.keyframes[(position, migrationIndex)]
        else db.keyframes[(position, migrationIndex)] + modelStore;
    }

    /** `_create_model` and `_update_model`: only a persistent keyframe writes to the database. */
    method PutModel(fqid: Fqid, row: ModelRow)
      requires Valid()
      modifies this`modelStore, db`keyframes
      ensures Valid() && Contents() == old(Contents())[fqid := row]
      ensures kind.Persistent? ==> modelStore == old(modelStore)
      ensures db.keyframes ==
        if kind.Persistent? then old(db.keyframes)[(position, migrationIndex) := Contents()] else old(db.keyframes)
    {
      if kind.Persistent? {
        var stored := db.keyframes[(position, migrationIndex)];
        db.keyframes := db.keyframes[(position, migrationIndex) := stored[fqid := row]];
      } else {
        modelStore := modelStore[fqid := row];
      }
    }

    /** `apply_event`, on any kind of keyframe. */
    method ApplyEvent(e: Event) returns (r: Result<()>)
      requires Valid()
      modifies this`modelStore, db`keyframes
      ensures Valid()
      ensures match Replay.ApplyEvent(old(Contents()), e, nextPosition)
        case Ok(models) => r.Ok? && Contents() == models
        case Err(error) => r == Err(error) && Contents() == old(Contents())
      ensures db.keyframes ==
        if kind.Persistent? then old(db.keyframes)[(position, migrationIndex) := Contents()] else old(db.keyframes)
    {
      if !e.WellFormed() {
        return Err(BadEvent);
      }
      var found := FetchModel(e.fqid);
      if e.Create? {
        if found.Some? {
          return Err(BadEvent);
        }
        PutModel(e.fqid, ModelRow(e.data[META_POSITION := Int(nextPosition)][META_DELETED := Bool(false)], false));
      } else {
        if found.None? {
          return Err(BadEvent);
        }
        var data, deleted := found.value.data[META_POSITION := Int(nextPosition)], found.value.deleted;
        match e {
          case Update(_, fields) =>
            if deleted { return Err(BadEvent); }
            data := data + fields;
          case DeleteFields(_, fields) =>
            if deleted { return Err(BadEvent); }
            ghost var before := data;
            for i := 0 to |fields|
              invariant data == before - (set f | f in fields[..i])
            {
              data := map f | f in data && f != fields[i] :: data[f];
            }
            assert fields[..|fields|] == fields;
          case ListUpdate(_, add, remove) =>
            if deleted { return Err(BadEvent); }
            var modified := ApplyFields(data, add, remove);
            if modified.Err? { return Err(modified.error); }
            data := data + modified.value;
          case Delete(_) =>
            if deleted { return Err(BadEvent); }
            data, deleted := data[META_DELETED := Bool(true)], true;
          case Restore(_) =>
            if !deleted { return Err(BadEvent); }
            data, deleted := data[META_DELETED := Bool(false)], false;
        }
        PutModel(e.fqid, ModelRow(data, deleted));
      }
      r := Ok(());
    }

    /** `move_to_next_position`: the data goes to the next position, unless a keyframe is there already. */
    method MoveToNextPosition() returns (r: Result<()>)
      requires Valid() && FirstAfter(db.positions, position) == Some(nextPosition)
      requires kind.Initial? || position != nextPosition
      modifies db`keyframes
      ensures r == if kind.Overlay? then Err(BadCoding) else Ok(())
      ensures db.keyframes ==
        if kind.Overlay? then old(db.keyframes)
        else
          var others := if kind.Initial? then old(db.keyframes) else old(db.keyframes) - {(position, migrationIndex)};
          if (nextPosition, migrationIndex) in others then others
          else others[(nextPosition, migrationIndex) := old(Contents())]
    {
      if kind.Overlay? {
        return Err(BadCoding);
      }
      var next := FirstAfter(db.positions, position).value;
      var frames := db.keyframes;
      if kind.Initial? {
        if (next, migrationIndex) !in frames {
          db.keyframes := frames[(next, migrationIndex) := modelStore];
        }
      } else {
        var stored := frames[(position, migrationIndex)];
        var others := map key | key in frames && key != (position, migrationIndex) :: frames[key];
        assert others == frames - {(position, migrationIndex)};
        db.keyframes :=
          if (next, migrationIndex) in frames then others else others[(next, migrationIndex) := stored];
      }
      r := Ok(());
    }
  }
}
