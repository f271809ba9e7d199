/** Values shared by the writer, the reader and the migrations: keys, JSON values, models, events. */
module Types {
  datatype Option<+T> = None | Some(value: T)

  datatype Error =
    | ModelExists(fqid: Fqid)
    | ModelDoesNotExist(fqid: Fqid)
    | ModelNotDeleted(fqid: Fqid)
    | ModelLocked(keys: set<LockKey>)
    | DatastoreNotEmpty
    | InvalidFormat
    | InvalidRequest
    | BadCoding
    | BadEvent
    | NotIterable            // a Python TypeError of a list operation on a value that is no list
    | MismatchingMigrationIndices
    | MigrationSetup
    | MigrationRaised        // the code of a registered migration raised
    | DatabaseError          // the database cannot read a query
    | Interrupted            // the process stopped between two transactions

  datatype Result<+T> = Ok(value: T) | Err(error: Error) {
    predicate IsFailure() { Err? }
    function PropagateFailure<U>(): Result<U>
      requires Err?
    {
      Err(error)
    }
    function Extract(): T
      requires Ok?
    {
      value
    }
  }

  type Collection = string
  type Field = string
  type Position = int

  datatype Fqid = Fqid(collection: Collection, id: nat)
  datatype CollectionField = CollectionField(collection: Collection, field: Field)
  datatype LockKey =
    | FqidKey(fqid: Fqid)
    | FqfieldKey(fqid: Fqid, field: Field)
    | CollectionFieldKey(cf: CollectionField)

  /** JSON values; floats and objects are kept as their text. */
  datatype Json = Null | Bool(b: bool) | Int(n: int) | Str(s: string) | List(items: seq<Json>) | Other(text: string)

  type Model = map<Field, Json>
  type ListUpdates = map<Field, seq<Json>>

  /** A row of the tables `models` and `migration_keyframe_models`. */
  datatype ModelRow = ModelRow(data: Model, deleted: bool)
  type Models = map<Fqid, ModelRow>

  function Get<K, V>(m: map<K, V>, key: K): Option<V> { if key in m then Some(m[key]) else None }

  /** The next element of an iteration over a set, in no particular order. */
  method Pick<T>(s: set<T>) returns (x: T)
    requires s != {}
    ensures x in s
  {
    x :| x in s;
  }

  const META_DELETED: Field := "meta_deleted"
  const META_POSITION: Field := "meta_position"

  predicate IsReserved(field: Field) { "meta" <= field }

  /** The reserved fields are those whose names start like this. */
  lemma ReservedMeans(field: Field)
    ensures IsReserved(field) <==> |field| >= 4 && field[..4] == "meta"
  {}

  lemma MetaFieldsAreReserved()
    ensures IsReserved(META_DELETED) && IsReserved(META_POSITION) && META_DELETED != META_POSITION
  {
    assert META_DELETED[5] == 'd' && META_POSITION[5] == 'p';
  }

  datatype Event =
    | Create(fqid: Fqid, data: Model)
    | Update(fqid: Fqid, data: Model)
    | DeleteFields(fqid: Fqid, fields: seq<Field>)
    | ListUpdate(fqid: Fqid, add: ListUpdates, remove: ListUpdates)
    | Delete(fqid: Fqid)
    | Restore(fqid: Fqid)
  {
    /** The constructor checks of the migration events, which `clone` repeats. */
    predicate WellFormed() {
      match this
      case Create(_, data) => WellFormedData(data)
      case Update(_, data) => WellFormedData(data)
      case DeleteFields(_, fields) => forall f | f in fields :: !IsReserved(f)
      case ListUpdate(_, add, remove) => forall f | f in add.Keys + remove.Keys :: !IsReserved(f)
      case Delete(_) => true
      case Restore(_) => true
    }
  }

  predicate WellFormedData(data: Model) {
    forall f | f in data :: !IsReserved(f) && data[f] != Null
  }
}
