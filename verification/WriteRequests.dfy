/** Write requests: what their constructor makes of the locked fields. */
module WriteRequests {
  import opened Types
  import opened DbEvents
  import opened Filters

  datatype FilteredLock = FilteredLock(position: Position, filter: Option<Filter>)

  /** A lock as it is given: a position, a filtered lock, or a list of those. */
  datatype LockJson = AtPosition(position: Position) | OneLock(lock: FilteredLock) | ManyLocks(locks: seq<FilteredLock>)

  datatype CollectionFieldLock = Plain(position: Position) | Filtered(locks: seq<FilteredLock>)

  type FqidLocks = map<Fqid, Position>
  type FqfieldLocks = map<(Fqid, Field), Position>
  type CollectionFieldLocks = map<CollectionField, CollectionFieldLock>

  datatype WriteRequest = WriteRequest(
    events: seq<RequestEvent>,
    lockedFqids: FqidLocks,
    lockedFqfields: FqfieldLocks,
    lockedCollectionFields: CollectionFieldLocks,
    migrationIndex: Option<int>)

  /** A position must be positive, and only collectionfields may be locked with a filter. */
  predicate LockAllowed(key: LockKey, lock: LockJson) {
    && (lock.AtPosition? ==> lock.position > 0)
    && (!lock.AtPosition? ==> key.CollectionFieldKey?)
  }

  function LockList(lock: LockJson): seq<FilteredLock>
    requires !lock.AtPosition?
  {
    if lock.OneLock? then [lock.lock] else lock.locks
  }

  /** The lock a dictionary of collectionfield locks holds for a given one: none for an empty list. */
  function CollectionFieldLockOf(given: Option<LockJson>): Option<CollectionFieldLock> {
    match given
    case None => None
    case Some(AtPosition(p)) => Some(Plain(p))
    case Some(lock) => if LockList(lock) == [] then None else Some(Filtered(LockList(lock)))
  }

  function PositionOf(given: Option<LockJson>): Option<Position> {
    if given.Some? && given.value.AtPosition? then Some(given.value.position) else None
  }

  /** The three dictionaries hold each of the given locks under its kind, and nothing else. */
  ghost predicate Classifies(r: WriteRequest, given: map<LockKey, LockJson>) {
    && (forall f :: Get(r.lockedFqids, f) == PositionOf(Get(given, FqidKey(f))))
    && (forall f, field :: Get(r.lockedFqfields, (f, field)) == PositionOf(Get(given, FqfieldKey(f, field))))
    && (forall cf :: Get(r.lockedCollectionFields, cf) == CollectionFieldLockOf(Get(given, CollectionFieldKey(cf))))
  }

  /** `handle_single_key`; a key with an empty list of locks never gets into the dictionary. */
  method HandleSingleKey(r: WriteRequest, key: LockKey, lock: LockJson) returns (r': Result<WriteRequest>)
    ensures r'.Ok? <==> if lock.AtPosition? then lock.position > 0 else key.CollectionFieldKey?
    ensures r'.Err? ==> r'.error == InvalidFormat
    ensures r'.Ok? && lock.OneLock? ==> forall cf | key == CollectionFieldKey(cf) ::
      r'.value == r.(lockedCollectionFields := r.lockedCollectionFields[cf := Filtered([lock.lock])])
    ensures r'.Ok? && lock.ManyLocks? ==> forall cf | key == CollectionFieldKey(cf) ::
      r'.value == if lock.locks == [] then r
        else r.(lockedCollectionFields := r.lockedCollectionFields[cf := Filtered(lock.locks)])
    ensures r'.Ok? ==> r'.value == match key
      case FqidKey(f) => r.(lockedFqids := r.lockedFqids[f := lock.position])
      case FqfieldKey(f, field) => r.(lockedFqfields := r.lockedFqfields[(f, field) := lock.position])
      case CollectionFieldKey(cf) =>
        if lock.AtPosition? then r.(lockedCollectionFields := r.lockedCollectionFields[cf := Plain(lock.position)])
        else if LockList(lock) == [] then r
        else r.(lockedCollectionFields := r.lockedCollectionFields[cf := Filtered(LockList(lock))])
  {
    if lock.AtPosition? && lock.position <= 0 {
      return Err(InvalidFormat);
    }
    if (key.FqidKey? || key.FqfieldKey?) && !lock.AtPosition? {
      return Err(InvalidFormat);
    }
    match key {
      case FqidKey(f) =>
        r' := Ok(r.(lockedFqids := r.lockedFqids[f := lock.position]));
      case FqfieldKey(f, field) =>
        r' := Ok(r.(lockedFqfields := r.lockedFqfields[(f, field) := lock.position]));
      case CollectionFieldKey(cf) =>
        if lock.AtPosition? {
          r' := Ok(r.(lockedCollectionFields := r.lockedCollectionFields[cf := Plain(lock.position)]));
        } else {
          var locks := LockList(lock);
          var locked := r.lockedCollectionFields;
          for i := 0 to |locks|
            invariant locked ==
              if i == 0 then r.lockedCollectionFields else r.lockedCollectionFields[cf := Filtered(locks[..i])]
          {
            var known := if i == 0 then [] else locked[cf].locks;
            assert locks[..i + 1] == locks[..i] + [locks[i]];
            locked := locked[cf := Filtered(known + [locks[i]])];
          }
          assert locks[..|locks|] == locks;
          r' := Ok(r.(lockedCollectionFields := locked));
        }
    }
  }

  /** The constructor: some events, and locks that are classified without a loss. */
  method Make(events: seq<RequestEvent>, given: map<LockKey, LockJson>, migrationIndex: Option<int>)
    returns (r: Result<WriteRequest>)
    ensures r.Ok? <==> events != [] && forall key | key in given ::
      if given[key].AtPosition? then given[key].position > 0 else key.CollectionFieldKey?
    ensures r.Err? ==> r.error == InvalidFormat
    ensures r.Ok? ==> r.value.events == events && r.value.migrationIndex == migrationIndex
    ensures r.Ok? ==> forall f :: f in r.value.lockedFqids <==> FqidKey(f) in given
    ensures r.Ok? ==> forall f | f in r.value.lockedFqids :: given[FqidKey(f)] == AtPosition(r.value.lockedFqids[f])
    ensures r.Ok? ==> forall f, field :: (f, field) in r.value.lockedFqfields <==> FqfieldKey(f, field) in given
    ensures r.Ok? ==> forall f, field | (f, field) in r.value.lockedFqfields ::
      given[FqfieldKey(f, field)] == AtPosition(r.value.lockedFqfields[(f, field)])
    ensures r.Ok? ==> forall cf | cf in r.value.lockedCollectionFields :: CollectionFieldKey(cf) in given
    ensures r.Ok? ==> forall cf | CollectionFieldKey(cf) in given ::
      match given[CollectionFieldKey(cf)]
      case AtPosition(p) => Get(r.value.lockedCollectionFields, cf) == Some(Plain(p))
      case OneLock(l) => Get(r.value.lockedCollectionFields, cf) == Some(Filtered([l]))
      case ManyLocks(ls) => Get(r.value.lockedCollectionFields, cf) == if ls == [] then None else Some(Filtered(ls))
  {
    hide Classifies;
    if events == [] {
      return Err(InvalidFormat);
    }
    NothingGiven(events, migrationIndex);
    var request := WriteRequest(events, map[], map[], map[], migrationIndex);
    var todo := given.Keys;
    ghost var done: map<LockKey, LockJson> := map[];
    while todo != {}
      invariant todo <= given.Keys && done == given - todo
      invariant request.events == events && request.migrationIndex == migrationIndex && Classifies(request, done)
      invariant forall key | key in done :: LockAllowed(key, given[key])
      decreases |todo|
    {
      var key := Pick(todo);
      todo := todo - {key};
      var handled := HandleSingleKey(request, key, given[key]);
      if handled.Err? {
        return Err(handled.error);
      }
      OneKeyMore(request, handled.value, done, key, given[key]);
      request := handled.value;
      done := done[key := given[key]];
    }
    assert done == given;
    ClassifiesAll(request, given);
    r := Ok(request);
  }

  /** The dictionaries, in terms of what was given. */
  lemma ClassifiesAll(r: WriteRequest, given: map<LockKey, LockJson>)
    requires Classifies(r, given) && forall key | key in given :: LockAllowed(key, given[key])
    ensures forall f :: f in r.lockedFqids <==> FqidKey(f) in given
    ensures forall f | f in r.lockedFqids :: given[FqidKey(f)] == AtPosition(r.lockedFqids[f])
    ensures forall f, field :: (f, field) in r.lockedFqfields <==> FqfieldKey(f, field) in given
    ensures forall f, field | (f, field) in r.lockedFqfields ::
      given[FqfieldKey(f, field)] == AtPosition(r.lockedFqfields[(f, field)])
    ensures forall cf | cf in r.lockedCollectionFields :: CollectionFieldKey(cf) in given
    ensures forall cf | CollectionFieldKey(cf) in given ::
      match given[CollectionFieldKey(cf)]
      case AtPosition(p) => Get(r.lockedCollectionFields, cf) == Some(Plain(p))
      case OneLock(l) => Get(r.lockedCollectionFields, cf) == Some(Filtered([l]))
      case ManyLocks(ls) => Get(r.lockedCollectionFields, cf) == if ls == [] then None else Some(Filtered(ls))
  {
    forall f
      ensures f in r.lockedFqids <==> FqidKey(f) in given
      ensures f in r.lockedFqids ==> given[FqidKey(f)] == AtPosition(r.lockedFqids[f])
    {
      assert Get(r.lockedFqids, f) == PositionOf(Get(given, FqidKey(f)));
    }
    forall f, field
      ensures (f, field) in r.lockedFqfields <==> FqfieldKey(f, field) in given
      ensures (f, field) in r.lockedFqfields ==> given[FqfieldKey(f, field)] == AtPosition(r.lockedFqfields[(f, field)])
    {
      assert Get(r.lockedFqfields, (f, field)) == PositionOf(Get(given, FqfieldKey(f, field)));
    }
    forall cf
      ensures Get(r.lockedCollectionFields, cf) == CollectionFieldLockOf(Get(given, CollectionFieldKey(cf)))
    {
    }
  }

  lemma NothingGiven(events: seq<RequestEvent>, migrationIndex: Option<int>)
    ensures Classifies(WriteRequest(events, map[], map[], map[], migrationIndex), map[])
  {}

  lemma OneKeyMore(r: WriteRequest, r': WriteRequest, given: map<LockKey, LockJson>, key: LockKey, lock: LockJson)
    requires Classifies(r, given) && key !in given && LockAllowed(key, lock)
    requires r' == match key
      case FqidKey(f) => r.(lockedFqids := r.lockedFqids[f := lock.position])
      case FqfieldKey(f, field) => r.(lockedFqfields := r.lockedFqfields[(f, field) := lock.position])
      case CollectionFieldKey(cf) =>
        if lock.AtPosition? then r.(lockedCollectionFields := r.lockedCollectionFields[cf := Plain(lock.position)])
        else if LockList(lock) == [] then r
        else r.(lockedCollectionFields := r.lockedCollectionFields[cf := Filtered(LockList(lock))])
    ensures Classifies(r', given[key := lock])
  {}
}
