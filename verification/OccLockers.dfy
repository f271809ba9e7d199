/** Optimistic locking: the three lock queries, and what an accepted request may rely on. */
module OccLockers {
  import opened Types
  import opened Replay
  import opened Tables
  import opened LockIndex
  import opened LockLaws
  import opened Backend
  import opened Filters
  import opened WriteRequests
  import opened LockQueries

  predicate FilterOk(filter: Option<Filter>) {
    filter.Some? ==> Comparable(filter.value) && NonEmptyLists(filter.value)
  }

  /** Every filter of the locks can be compiled to a condition that the database can read. */
  predicate FiltersOk(locks: CollectionFieldLocks) {
    forall cf | cf in locks && locks[cf].Filtered? :: forall lock | lock in locks[cf].locks :: FilterOk(lock.filter)
  }

  /** Every filter of the locks can be compiled. */
  predicate FiltersComparable(locks: CollectionFieldLocks) {
    forall cf | cf in locks && locks[cf].Filtered? ::
      forall lock | lock in locks[cf].locks :: lock.filter.Some? ==> Comparable(lock.filter.value)
  }

  lemma OkIsComparable(locks: CollectionFieldLocks)
    requires FiltersOk(locks)
    ensures FiltersComparable(locks)
  {
    hide Comparable, NonEmptyLists;
  }

  /** One of the locks on a model was set at a position before an event that modifies this field of it. */
  ghost predicate FqfieldReported(t: EventTable, links: Links, locks: FqfieldLocks, f: Fqid, field: Field) {
    && (f, field) in locks
    && exists other :: (f, other) in locks && FqfieldBroken(t, links, f, field, locks[(f, other)])
  }

  ghost predicate LockBroken(
    t: EventTable, cfs: CollectionFields, links: Links, models: Models, holds: ModelSemantics,
    cf: CollectionField, lock: CollectionFieldLock)
    requires lock.Filtered? ==> forall l | l in lock.locks :: FilterOk(l.filter)
  {
    match lock
    case Plain(p) => CollectionFieldBroken(cfs, cf, p)
    case Filtered(locks) => exists l | l in locks ::
      FilteredBroken(t, links, models, cf, l.position, m => FilterOk(l.filter) && Matches(holds, l.filter, m))
  }

  /** What the joins of the query rely on: linked events and their models exist. */
  ghost predicate Joinable(t: EventTable, cfs: CollectionFields, links: Links, models: Models) {
    && (forall id, cf | (id, cf) in links :: id in t && t[id].event.fqid in models && cf in cfs)
    && (forall cf | cf in cfs :: Newest(t, cfs, links, cf))
  }

  /** The tables a verdict is read off. */
  datatype LockTables = LockTables(
    events: EventTable, collectionfields: CollectionFields, links: Links, models: Models)

  function LockTablesOf(db: Database): LockTables
    reads db
  {
    LockTables(db.events, db.collectionfields, db.links, db.models)
  }

  ghost predicate CollectionFieldReported(
    t: LockTables, holds: ModelSemantics, locks: CollectionFieldLocks, cf: CollectionField)
    requires FiltersOk(locks)
  {
    cf in locks && LockBroken(t.events, t.collectionfields, t.links, t.models, holds, cf, locks[cf])
  }

  ghost predicate KeyBroken(t: LockTables, holds: ModelSemantics, request: WriteRequest, key: LockKey)
    requires FiltersOk(request.lockedCollectionFields)
  {
    match key
    case FqidKey(f) => f in request.lockedFqids && FqidBroken(t.events, f, request.lockedFqids[f])
    case FqfieldKey(f, field) => FqfieldReported(t.events, t.links, request.lockedFqfields, f, field)
    case CollectionFieldKey(cf) => CollectionFieldReported(t, holds, request.lockedCollectionFields, cf)
  }

  function KeysOf(request: WriteRequest): set<LockKey> {
    (set f | f in request.lockedFqids :: FqidKey(f))
    + (set key | key in request.lockedFqfields :: FqfieldKey(key.0, key.1))
    + (set cf | cf in request.lockedCollectionFields :: CollectionFieldKey(cf))
  }

  ghost function BrokenKeys(t: LockTables, holds: ModelSemantics, request: WriteRequest): set<LockKey>
    requires FiltersOk(request.lockedCollectionFields)
  {
    set key | key in KeysOf(request) && KeyBroken(t, holds, request, key)
  }

  lemma KeyNamed(t: LockTables, holds: ModelSemantics, request: WriteRequest, key: LockKey)
    requires FiltersOk(request.lockedCollectionFields)
    ensures key in BrokenKeys(t, holds, request) <==> KeyBroken(t, holds, request, key)
  {
    hide FqidBroken, FqfieldBroken, LockBroken, FiltersOk;
    match key
    case FqidKey(f) => assert f in request.lockedFqids ==> key in KeysOf(request);
    case FqfieldKey(f, field) => assert (f, field) in request.lockedFqfields ==> key in KeysOf(request);
    case CollectionFieldKey(cf) => assert cf in request.lockedCollectionFields ==> key in KeysOf(request);
  }

  /** The outcome of the lock check, with its error. */
  ghost function LockVerdict(t: LockTables, holds: ModelSemantics, request: WriteRequest): Result<()> {
    if !FiltersComparable(request.lockedCollectionFields) then Err(InvalidFormat)
    else if !FiltersOk(request.lockedCollectionFields) then Err(DatabaseError)
    else if BrokenKeys(t, holds, request) != {} then Err(ModelLocked(BrokenKeys(t, holds, request)))
    else Ok(())
  }

  /** A filter that cannot be compiled or read decides before any lock; else the error names the broken ones. */
  lemma VerdictMeans(t: LockTables, holds: ModelSemantics, request: WriteRequest)
    ensures var locks, verdict := request.lockedCollectionFields, LockVerdict(t, holds, request);
      && (!FiltersComparable(locks) ==> verdict == Err(InvalidFormat))
      && (FiltersComparable(locks) && !FiltersOk(locks) ==> verdict == Err(DatabaseError))
      && (FiltersOk(locks) && verdict.Ok? ==> forall key :: !KeyBroken(t, holds, request, key))
      && (FiltersOk(locks) && verdict.Err? ==> verdict.error.ModelLocked? && verdict.error.keys != {})
      && (FiltersOk(locks) && verdict.Err? ==>
            forall key :: key in verdict.error.keys <==> KeyBroken(t, holds, request, key))
  {
    hide KeyBroken, FiltersOk, FiltersComparable, BrokenKeys;
    if FiltersOk(request.lockedCollectionFields) {
      OkIsComparable(request.lockedCollectionFields);
      forall key
        ensures key in BrokenKeys(t, holds, request) <==> KeyBroken(t, holds, request, key)
      {
        KeyNamed(t, holds, request, key);
      }
    }
  }

  class OccLocker {
    const db: Database
    const holds: ModelSemantics

    constructor (db: Database, holds: ModelSemantics)
      ensures this.db == db && this.holds == holds
    {
      this.db, this.holds := db, holds;
    }

    method GetLockedFqids(locks: FqidLocks) returns (broken: set<Fqid>)
      ensures forall f :: f in broken <==> f in locks && FqidBroken(db.events, f, locks[f])
    {
      var parts: set<(Fqid, Position)> := {};
      var todo := locks.Keys;
      while todo != {}
        invariant todo <= locks.Keys
        invariant forall f, p :: (f, p) in parts <==> f in locks && f !in todo && locks[f] == p
        decreases |todo|
      {
        var f := Pick(todo);
        todo := todo - {f};
        parts := parts + {(f, locks[f])};
      }
      broken := set id, part | id in db.events && part in parts
        && db.events[id].event.fqid == part.0 && db.events[id].position > part.1 :: part.0;
      forall f | f in locks && FqidBroken(db.events, f, locks[f])
        ensures f in broken
      {
        assert (f, locks[f]) in parts;
      }
    }

    /**
     * The positions of all locks on a model go into one condition, its locked fields into another one:
     * every lock on the model is checked with the smallest of its positions.
     */
    method GetLockedFqfields(locks: FqfieldLocks) returns (broken: set<(Fqid, Field)>)
      ensures forall f, field :: (f, field) in broken <==> FqfieldReported(db.events, db.links, locks, f, field)
    {
      var positions: set<(Fqid, Position)> := {};
      var fields: map<Fqid, seq<CollectionField>> := map[];
      var todo := locks.Keys;
      while todo != {}
        invariant todo <= locks.Keys
        invariant forall f, p :: (f, p) in positions <==>
          exists other :: (f, other) in locks && (f, other) !in todo && locks[(f, other)] == p
        invariant forall f, cf :: f in fields && cf in fields[f] <==>
          (f, cf.field) in locks && (f, cf.field) !in todo && cf.collection == f.collection
        decreases |todo|
      {
        var key := Pick(todo);
        todo := todo - {key};
        var (f, field) := key;
        if (f, locks[key]) !in positions {
          positions := positions + {(f, locks[key])};
        }
        var known := if f in fields then fields[f] else [];
        fields := fields[f := known + [CollectionField(f.collection, field)]];
      }
      broken := set link, part |
        link in db.links && link.0 in db.events && part in positions
        && db.events[link.0].event.fqid == part.0 && db.events[link.0].position > part.1
        && part.0 in fields && link.1 in fields[part.0] :: (part.0, link.1.field);
      Reported(locks, positions, fields, broken);
    }

    lemma Reported(
      locks: FqfieldLocks, positions: set<(Fqid, Position)>, fields: map<Fqid, seq<CollectionField>>,
      broken: set<(Fqid, Field)>)
      requires forall f, p :: (f, p) in positions <==> exists other :: (f, other) in locks && locks[(f, other)] == p
      requires forall f, cf ::
        f in fields && cf in fields[f] <==> (f, cf.field) in locks && cf.collection == f.collection
      requires broken == set link, part |
        link in db.links && link.0 in db.events && part in positions
        && db.events[link.0].event.fqid == part.0 && db.events[link.0].position > part.1
        && part.0 in fields && link.1 in fields[part.0] :: (part.0, link.1.field)
      ensures forall f, field :: (f, field) in broken <==> FqfieldReported(db.events, db.links, locks, f, field)
    {
      forall f, field
        ensures (f, field) in broken <==> FqfieldReported(db.events, db.links, locks, f, field)
      {
        if (f, field) in broken {
          var link, part :| link in db.links && link.0 in db.events && part in positions
            && db.events[link.0].event.fqid == part.0 && db.events[link.0].position > part.1
            && part.0 in fields && link.1 in fields[part.0] && (part.0, link.1.field) == (f, field);
          var other :| (f, other) in locks && locks[(f, other)] == part.1;
          assert link.1 == CollectionField(f.collection, field);
          assert FqfieldBroken(db.events, db.links, f, field, locks[(f, other)]);
        }
        if FqfieldReported(db.events, db.links, locks, f, field) {
          var other :| (f, other) in locks && FqfieldBroken(db.events, db.links, f, field, locks[(f, other)]);
          var cf := CollectionField(f.collection, field);
          var id :| id in db.events && db.events[id].event.fqid == f
            && db.events[id].position > locks[(f, other)] && (id, cf) in db.links;
          assert (f, locks[(f, other)]) in positions;
          assert cf in fields[f];
          assert (id, cf) in db.links;
        }
      }
    }

    /** The select of the query; with the joins a collectionfield comes up once for each of its events. */
    method SelectCollectionfields(condition: Expr, joinsNeeded: bool) returns (found: set<CollectionField>)
      ensures forall cf :: cf in found <==> Selected(condition, joinsNeeded, cf)
    {
      if joinsNeeded {
        found := set link |
          link in db.links && link.1 in db.collectionfields && link.0 in db.events
          && db.events[link.0].event.fqid in db.models
          && Eval(condition, RowSemantics(holds, JoinedWith(link.0, link.1))) == True :: link.1;
      } else {
        found := set cf |
          cf in db.collectionfields
          && Eval(condition, RowSemantics(holds, JoinedRow(cf, db.collectionfields[cf], None))) == True;
      }
    }

    function JoinedWith(id: nat, cf: CollectionField): JoinedRow
      requires cf in db.collectionfields && id in db.events && db.events[id].event.fqid in db.models
      reads db
    {
      JoinedRow(cf, db.collectionfields[cf], Some((db.events[id].position, db.models[db.events[id].event.fqid])))
    }

    ghost predicate Selected(condition: Expr, joinsNeeded: bool, cf: CollectionField)
      reads db
    {
      && cf in db.collectionfields
      && (joinsNeeded ==> exists id ::
            && (id, cf) in db.links && id in db.events && db.events[id].event.fqid in db.models
            && Eval(condition, RowSemantics(holds, JoinedWith(id, cf))) == True)
      && (!joinsNeeded ==> Eval(condition, RowSemantics(holds, JoinedRow(cf, db.collectionfields[cf], None))) == True)
    }

    /** Text and arguments for one lock more. */
    method AddCondition(c: LockCondition, tokens: seq<Token>, args: seq<Argument>, ghost cs: seq<LockCondition>)
      returns (r: Result<seq<Token>>, args': seq<Argument>)
      requires forall x | x in cs :: ConditionOk(x)
      requires tokens == LocksSql(cs).tokens && args == LocksSql(cs).args
      ensures r.Ok? <==> ConditionOk(c)
      ensures r.Err? ==> r.error == InvalidFormat
      ensures r.Ok? ==> forall x | x in cs + [c] :: ConditionOk(x)
      ensures r.Ok? ==> r.value == LocksSql(cs + [c]).tokens && args' == LocksSql(cs + [c]).args
    {
      hide LocksSql, Compiled, Comparable;
      var text: seq<Token>;
      if c.PlainCondition? {
        text, args' := [Cond(FieldIs), AND, Cond(FieldAfter)], args + [Key(c.cf), After(c.position)];
      } else {
        text, args' := [Cond(EventAfter), AND, Cond(FieldIs)], args + [After(c.lock.position), Key(c.cf)];
        if c.lock.filter.Some? {
          var filter;
          filter, args' := BuildFilterStr(c.lock.filter.value, args');
          if filter.Err? {
            return filter, args';
          }
          text := text + [AND, LParen] + filter.value + [RParen];
        }
      }
      assert text == ConditionSql(c).tokens && args' == args + ConditionSql(c).args;
      OneConditionMore(cs, c);
      r := Ok(tokens + (if tokens == [] then [] else [OR]) + [LParen] + text + [RParen]);
    }

    method AddFilteredLocks(
      cf: CollectionField, ls: seq<FilteredLock>, tokens: seq<Token>, args: seq<Argument>, ghost cs: seq<LockCondition>)
      returns (r: Result<seq<Token>>, args': seq<Argument>, ghost cs': seq<LockCondition>)
      requires forall c | c in cs :: ConditionOk(c)
      requires tokens == LocksSql(cs).tokens && args == LocksSql(cs).args
      ensures r.Ok? <==> forall l | l in ls :: ConditionOk(FilteredCondition(cf, l))
      ensures r.Err? ==> r.error == InvalidFormat
      ensures r.Ok? ==> forall c :: c in cs' <==> c in cs || (c.FilteredCondition? && c.cf == cf && c.lock in ls)
      ensures r.Ok? ==> forall c | c in cs' :: ConditionOk(c)
      ensures r.Ok? ==> r.value == LocksSql(cs').tokens && args' == LocksSql(cs').args
    {
      hide LocksSql, ConditionSql, ConditionOk;
      var text := tokens;
      args', cs' := args, cs;
      for i := 0 to |ls|
        invariant forall c | c in cs' :: ConditionOk(c)
        invariant forall c :: c in cs' <==> c in cs || (c.FilteredCondition? && c.cf == cf && c.lock in ls[..i])
        invariant forall l | l in ls[..i] :: ConditionOk(FilteredCondition(cf, l))
        invariant text == LocksSql(cs').tokens && args' == LocksSql(cs').args
      {
        assert ls[i] in ls;
        var added;
        added, args' := AddCondition(FilteredCondition(cf, ls[i]), text, args', cs');
        if added.Err? {
          return added, args', cs';
        }
        text, cs' := added.value, cs' + [FilteredCondition(cf, ls[i])];
      }
      assert ls[..|ls|] == ls;
      r := Ok(text);
    }

    /**
     * All locks on collectionfields in one query. A plain lock looks at the newest event of the
     * collectionfield, also when filtered locks make the query go through all linked events.
     */
    method GetLockedCollectionfields(locks: CollectionFieldLocks) returns (broken: Result<set<CollectionField>>)
      requires forall cf | cf in locks && locks[cf].Filtered? :: locks[cf].locks != []
      requires Joinable(db.events, db.collectionfields, db.links, db.models)
      ensures broken.Ok? <==> FiltersOk(locks)
      ensures broken.Err? ==> broken.error == if FiltersComparable(locks) then DatabaseError else InvalidFormat
      ensures broken.Ok? ==> forall cf ::
        cf in broken.value <==> CollectionFieldReported(LockTablesOf(db), holds, locks, cf)
    {
      hide LocksSql, Comparable, NonEmptyLists, LockBroken, ConditionSql, Selected, Joinable;
      if locks == map[] {
        return Ok({});
      }
      var tokens: seq<Token>, args: seq<Argument>, joinsNeeded := [], [], false;
      ghost var cs: seq<LockCondition> := [];
      var todo := locks.Keys;
      NoConditions();
      while todo != {}
        invariant todo <= locks.Keys && forall c | c in cs :: ConditionOk(c)
        invariant forall c :: c in cs <==> FromLock(locks, c) && c.cf !in todo
        invariant tokens == LocksSql(cs).tokens && args == LocksSql(cs).args
        invariant joinsNeeded <==> exists c | c in cs :: c.FilteredCondition?
        invariant cs == [] ==> todo == locks.Keys
        decreases |todo|
      {
        var cf := Pick(todo);
        todo := todo - {cf};
        match locks[cf] {
          case Plain(p) =>
            var added;
            added, args := AddCondition(PlainCondition(cf, p), tokens, args, cs);
            tokens, cs := added.value, cs + [PlainCondition(cf, p)];
          case Filtered(ls) =>
            joinsNeeded := true;
            var added;
            added, args, cs := AddFilteredLocks(cf, ls, tokens, args, cs);
            if added.Err? {
              UncompiledLock(locks, cf);
              return Err(added.error);
            }
            tokens := added.value;
            assert FilteredCondition(cf, ls[0]) in cs;
        }
      }
      var condition := ParseOr(tokens, args);
      ReadableLocks(locks, cs);
      if condition.None? || condition.value.tokens != [] || condition.value.args != [] {
        return Err(DatabaseError);
      }
      var found := SelectCollectionfields(condition.value.e, joinsNeeded);
      forall cf
        ensures Selected(condition.value.e, joinsNeeded, cf) <==>
          CollectionFieldReported(LockTablesOf(db), holds, locks, cf)
      {
        SelectedLock(locks, cs, joinsNeeded, cf);
      }
      broken := Ok(found);
    }

    /** Passes exactly if no lock is broken; otherwise the error names exactly the broken ones. */
    method AssertLockedFields(request: WriteRequest) returns (r: Result<()>)
      requires ListsGiven(request)
      requires Joinable(db.events, db.collectionfields, db.links, db.models)
      ensures r == LockVerdict(LockTablesOf(db), holds, request)
    {
      hide FqfieldReported, CollectionFieldReported, FiltersOk, FiltersComparable, FqidBroken, Joinable;
      var fqids := GetLockedFqids(request.lockedFqids);
      var fqfields := GetLockedFqfields(request.lockedFqfields);
      var collectionfields := GetLockedCollectionfields(request.lockedCollectionFields);
      if FiltersOk(request.lockedCollectionFields) { OkIsComparable(request.lockedCollectionFields); }
      if collectionfields.Err? {
        return Err(collectionfields.error);
      }
      var broken := (set f | f in fqids :: FqidKey(f))
        + (set key | key in fqfields :: FqfieldKey(key.0, key.1))
        + (set cf | cf in collectionfields.value :: CollectionFieldKey(cf));
      forall key
        ensures key in broken <==> key in BrokenKeys(LockTablesOf(db), holds, request)
      {
        match key {
          case FqidKey(f) => assert f in fqids <==> KeyBroken(LockTablesOf(db), holds, request, key);
          case FqfieldKey(f, field) =>
            assert (f, field) in fqfields <==> KeyBroken(LockTablesOf(db), holds, request, key);
          case CollectionFieldKey(cf) =>
            assert cf in collectionfields.value <==> KeyBroken(LockTablesOf(db), holds, request, key);
        }
        KeyNamed(LockTablesOf(db), holds, request, key);
      }
      assert broken == BrokenKeys(LockTablesOf(db), holds, request);
      if broken != {} {
        return Err(ModelLocked(broken));
      }
      r := Ok(());
    }

    lemma DemandedIsBroken(locks: CollectionFieldLocks, id: nat, c: LockCondition)
      requires FromLock(locks, c) && FiltersOk(locks) && ConditionOk(c)
      requires Joinable(db.events, db.collectionfields, db.links, db.models) && (id, c.cf) in db.links
      requires Demands(c, holds, JoinedWith(id, c.cf))
      ensures LockBroken(db.events, db.collectionfields, db.links, db.models, holds, c.cf, locks[c.cf])
    {
      hide Comparable, NonEmptyLists, Matches, Newest;
      if c.FilteredCondition? {
        assert c.lock in locks[c.cf].locks;
        assert FilteredBroken(db.events, db.links, db.models, c.cf, c.lock.position,
          m => FilterOk(c.lock.filter) && Matches(holds, c.lock.filter, m));
      }
    }

    /** A broken plain lock shows in the row of the newest event, a filtered one in that of its event. */
    lemma BrokenIsDemanded(locks: CollectionFieldLocks, cf: CollectionField) returns (id: nat, c: LockCondition)
      requires cf in locks && FiltersOk(locks)
      requires Joinable(db.events, db.collectionfields, db.links, db.models)
      requires LockBroken(db.events, db.collectionfields, db.links, db.models, holds, cf, locks[cf])
      ensures FromLock(locks, c) && ConditionOk(c) && (id, cf) in db.links && Demands(c, holds, JoinedWith(id, cf))
    {
      hide Comparable, NonEmptyLists, Matches;
      match locks[cf]
      case Plain(p) =>
        assert Newest(db.events, db.collectionfields, db.links, cf);
        id :| id in db.events && (id, cf) in db.links;
        c := PlainCondition(cf, p);
      case Filtered(ls) =>
        var l :| l in ls && FilteredBroken(db.events, db.links, db.models, cf, l.position,
          m => FilterOk(l.filter) && Matches(holds, l.filter, m));
        id :| id in db.events && db.events[id].position > l.position && (id, cf) in db.links
          && db.events[id].event.fqid in db.models
          && FilterOk(l.filter) && Matches(holds, l.filter, db.models[db.events[id].event.fqid]);
        c := FilteredCondition(cf, l);
    }

    lemma SelectedLock(locks: CollectionFieldLocks, cs: seq<LockCondition>, joinsNeeded: bool, cf: CollectionField)
      requires |cs| > 0 && (forall c | c in cs :: ConditionReadable(c)) && forall c :: c in cs <==> FromLock(locks, c)
      requires joinsNeeded <==> exists c | c in cs :: c.FilteredCondition?
      requires Joinable(db.events, db.collectionfields, db.links, db.models) && FiltersOk(locks)
      ensures Selected(LocksTree(cs), joinsNeeded, cf) <==> CollectionFieldReported(LockTablesOf(db), holds, locks, cf)
    {
      hide LocksTree, ConditionReadable, RowSemantics, Comparable, NonEmptyLists, Matches;
      if joinsNeeded {
        forall id | (id, cf) in db.links
          ensures Eval(LocksTree(cs), RowSemantics(holds, JoinedWith(id, cf))) == True
            <==> exists c | c in cs :: ConditionOk(c) && Demands(c, holds, JoinedWith(id, cf))
        {
          LocksMean(cs, holds, JoinedWith(id, cf));
        }
        forall id, c | (id, cf) in db.links && c in cs && Demands(c, holds, JoinedWith(id, cf))
          ensures CollectionFieldReported(LockTablesOf(db), holds, locks, cf)
        {
          DemandedIsBroken(locks, id, c);
        }
        if CollectionFieldReported(LockTablesOf(db), holds, locks, cf) {
          var id, c := BrokenIsDemanded(locks, cf);
        }
      } else if cf in db.collectionfields {
        var row := JoinedRow(cf, db.collectionfields[cf], None);
        LocksMean(cs, holds, row);
        if cf in locks && locks[cf].Plain? { assert FromLock(locks, PlainCondition(cf, locks[cf].position)); }
        assert cf in locks && locks[cf].Filtered? ==>
          forall l | l in locks[cf].locks :: !FromLock(locks, FilteredCondition(cf, l));
      }
    }
  }

  /** A dictionary of filtered locks is only ever extended by at least one lock. */
  predicate ListsGiven(request: WriteRequest) {
    forall cf | cf in request.lockedCollectionFields && request.lockedCollectionFields[cf].Filtered? ::
      request.lockedCollectionFields[cf].locks != []
  }

  /** The condition stands for one of the locks. */
  ghost predicate FromLock(locks: CollectionFieldLocks, c: LockCondition) {
    && c.cf in locks
    && (c.PlainCondition? ==> locks[c.cf] == Plain(c.position))
    && (c.FilteredCondition? ==> locks[c.cf].Filtered? && c.lock in locks[c.cf].locks)
  }

  lemma LockConditions(locks: CollectionFieldLocks, cs: seq<LockCondition>)
    requires (forall c | c in cs :: ConditionOk(c)) && forall c :: c in cs <==> FromLock(locks, c)
    ensures (forall c | c in cs :: ConditionReadable(c)) <==> FiltersOk(locks)
    ensures FiltersComparable(locks)
  {
    hide Comparable, NonEmptyLists;
    forall cf, lock | cf in locks && locks[cf].Filtered? && lock in locks[cf].locks
      ensures FilterOk(lock.filter) <==> ConditionReadable(FilteredCondition(cf, lock))
      ensures lock.filter.Some? ==> Comparable(lock.filter.value)
      ensures FilteredCondition(cf, lock) in cs
    {
      assert FromLock(locks, FilteredCondition(cf, lock));
    }
  }

  lemma ReadableLocks(locks: CollectionFieldLocks, cs: seq<LockCondition>)
    requires (forall c | c in cs :: ConditionOk(c)) && forall c :: c in cs <==> FromLock(locks, c)
    requires |cs| > 0
    ensures (forall c | c in cs :: ConditionReadable(c)) <==> FiltersOk(locks)
    ensures FiltersComparable(locks)
    ensures var parsed := ParseOr(LocksSql(cs).tokens, LocksSql(cs).args);
      && (parsed.Some? <==> FiltersOk(locks))
      && (parsed.Some? ==> parsed.value == Parsed(LocksTree(cs), [], []))
  {
    hide LocksSql, LocksTree, ConditionOk, ConditionReadable, FiltersOk, FiltersComparable, FromLock;
    LockConditions(locks, cs);
    assert LocksSql(cs).tokens + [] == LocksSql(cs).tokens && LocksSql(cs).args + [] == LocksSql(cs).args;
    ParseLocks(cs, [], []);
  }

  lemma UncompiledLock(locks: CollectionFieldLocks, cf: CollectionField)
    requires cf in locks && locks[cf].Filtered?
    requires exists l | l in locks[cf].locks :: !ConditionOk(FilteredCondition(cf, l))
    ensures !FiltersOk(locks) && !FiltersComparable(locks)
  {}

  lemma NoConditions()
    ensures LocksSql([]) == Sql([], [])
  {}

  lemma OneConditionMore(cs: seq<LockCondition>, c: LockCondition)
    requires ConditionOk(c) && forall x | x in cs :: ConditionOk(x)
    ensures forall x | x in cs + [c] :: ConditionOk(x)
    ensures var front, last := LocksSql(cs), ConditionSql(c);
      && (front.tokens == [] <==> cs == [])
      && LocksSql(cs + [c]).tokens
        == front.tokens + (if front.tokens == [] then [] else [OR]) + [LParen] + last.tokens + [RParen]
      && LocksSql(cs + [c]).args == front.args + last.args
  {
    hide ConditionSql, ConditionOk;
    assert Init(cs + [c]) == cs;
  }

  lemma StoreJoins(db: Database)
    requires StoreOk(db)
    ensures Joinable(db.events, db.collectionfields, db.links, db.models)
  {
    hide ModelsBefore, ReplayEvents, Touches, Newest;
    var log := Log(PositionsOf(db.positions), db.history);
    HistoryHasModel(log.ps, log.hist, |log.ps|);
    forall id, cf | (id, cf) in db.links
      ensures id in db.events && db.events[id].event.fqid in db.models && cf in db.collectionfields
    {
      assert LinkOk(log, db.events, id, cf);
      var k: nat :| k < |log.ps| && log.ps[k] == db.events[id].position;
      LockLaws.RowOf(log, db.events, id, k);
    }
  }

  // ---------------------------------------------------------------- what an accepted request may rely on

  ghost predicate SameModel(log: Log, models: Models, f: Fqid, p: Position)
    requires |log.ps| == |log.hist|
  {
    ModelsUpTo(log, p).Ok? && Lookup(ModelsUpTo(log, p).value, f) == Lookup(models, f)
  }

  ghost predicate SameField(log: Log, models: Models, f: Fqid, field: Field, p: Position)
    requires |log.ps| == |log.hist|
  {
    ModelsUpTo(log, p).Ok? && Visible(ModelsUpTo(log, p).value, f, field) == Visible(models, f, field)
  }

  /**
   * What was read at the locked positions is what is there now: a model, a field of a model, or the
   * field on every model of the collection, as far as it matches the filter. Locks on fields must not
   * be older than the lock index.
   */
  ghost predicate LocksHold(log: Log, models: Models, from: Position, request: WriteRequest, holds: ModelSemantics)
    requires |log.ps| == |log.hist| && FiltersOk(request.lockedCollectionFields)
  {
    && (forall f | f in request.lockedFqids :: SameModel(log, models, f, request.lockedFqids[f]))
    && (forall f, field | (f, field) in request.lockedFqfields && !IsReserved(field) ::
          from <= request.lockedFqfields[(f, field)] ==>
            SameField(log, models, f, field, request.lockedFqfields[(f, field)]))
    && (forall cf, f: Fqid |
          cf in request.lockedCollectionFields && !IsReserved(cf.field) && f.collection == cf.collection ::
          match request.lockedCollectionFields[cf]
          case Plain(p) => from <= p ==> SameField(log, models, f, cf.field, p)
          case Filtered(locks) => forall l | l in locks && from <= l.position && f in models ::
            Matches(holds, l.filter, models[f]) ==> SameField(log, models, f, cf.field, l.position))
  }

  /** The same without an exception: no lock on a field is older than the lock index. */
  ghost predicate LocksKept(log: Log, models: Models, request: WriteRequest, holds: ModelSemantics)
    requires |log.ps| == |log.hist| && FiltersOk(request.lockedCollectionFields)
  {
    && (forall f | f in request.lockedFqids :: SameModel(log, models, f, request.lockedFqids[f]))
    && (forall f, field | (f, field) in request.lockedFqfields && !IsReserved(field) ::
          SameField(log, models, f, field, request.lockedFqfields[(f, field)]))
    && (forall cf, f: Fqid |
          cf in request.lockedCollectionFields && !IsReserved(cf.field) && f.collection == cf.collection ::
          match request.lockedCollectionFields[cf]
          case Plain(p) => SameField(log, models, f, cf.field, p)
          case Filtered(locks) => forall l | l in locks && f in models ::
            Matches(holds, l.filter, models[f]) ==> SameField(log, models, f, cf.field, l.position))
  }

  /** All locks on fields are at this position or after it. */
  predicate FieldLocksFrom(request: WriteRequest, from: Position) {
    && (forall key | key in request.lockedFqfields :: from <= request.lockedFqfields[key])
    && (forall cf | cf in request.lockedCollectionFields ::
          match request.lockedCollectionFields[cf]
          case Plain(p) => from <= p
          case Filtered(locks) => forall l | l in locks :: from <= l.position)
  }

  lemma HeldAreKept(
    log: Log, models: Models, from: Position, request: WriteRequest, holds: ModelSemantics, first: Position)
    requires |log.ps| == |log.hist| && FiltersOk(request.lockedCollectionFields)
    requires LocksHold(log, models, from, request, holds) && FieldLocksFrom(request, first) && from <= first
    ensures LocksKept(log, models, request, holds)
  {
    hide SameModel, SameField, Matches, FiltersOk, IsReserved;
  }

  /** No stale lock is accepted. */
  lemma AcceptedLocksHold(locker: OccLocker, request: WriteRequest)
    requires StoreOk(locker.db) && LockVerdict(LockTablesOf(locker.db), locker.holds, request).Ok?
    ensures FiltersOk(request.lockedCollectionFields)
    ensures LocksHold(Log(PositionsOf(locker.db.positions), locker.db.history), locker.db.models,
      locker.db.indexedFrom, request, locker.holds)
  {
    hide ModelsUpTo, Visible, HoldsHistory, IndexOk, ReplayHistory, FqidBroken, FqfieldBroken, Comparable;
    hide NonEmptyLists, Lookup, Matches, IsReserved, SequencesOk, IdsBelow, FilteredBroken, BrokenKeys, KeysOf;
    hide FiltersComparable;
    var db := locker.db;
    assert BrokenKeys(LockTablesOf(db), locker.holds, request) == {};
    var log := Log(PositionsOf(db.positions), db.history);
    forall f | f in request.lockedFqids
      ensures SameModel(log, db.models, f, request.lockedFqids[f])
    {
      KeyNamed(LockTablesOf(db), locker.holds, request, FqidKey(f));
      FqidLockHolds(log, db.events, db.models, f, request.lockedFqids[f]);
    }
    forall f, field | (f, field) in request.lockedFqfields && !IsReserved(field)
        && db.indexedFrom <= request.lockedFqfields[(f, field)]
      ensures SameField(log, db.models, f, field, request.lockedFqfields[(f, field)])
    {
      KeyNamed(LockTablesOf(db), locker.holds, request, FqfieldKey(f, field));
      FqfieldLockHolds(log, db.events, db.collectionfields, db.links, db.indexedFrom, db.models, f, field,
        request.lockedFqfields[(f, field)]);
    }
    forall cf, f: Fqid | cf in request.lockedCollectionFields && !IsReserved(cf.field) && f.collection == cf.collection
      ensures match request.lockedCollectionFields[cf]
        case Plain(p) => db.indexedFrom <= p ==> SameField(log, db.models, f, cf.field, p)
        case Filtered(locks) => forall l | l in locks && db.indexedFrom <= l.position && f in db.models ::
          Matches(locker.holds, l.filter, db.models[f]) ==> SameField(log, db.models, f, cf.field, l.position)
    {
      KeyNamed(LockTablesOf(db), locker.holds, request, CollectionFieldKey(cf));
      assert cf == CollectionField(f.collection, cf.field);
      match request.lockedCollectionFields[cf] {
        case Plain(p) =>
          if db.indexedFrom <= p {
            CollectionFieldLockHolds(
              log, db.events, db.collectionfields, db.links, db.indexedFrom, db.models, f, cf.field, p);
          }
        case Filtered(locks) =>
          forall l |
              l in locks && db.indexedFrom <= l.position && f in db.models
              && Matches(locker.holds, l.filter, db.models[f])
            ensures SameField(log, db.models, f, cf.field, l.position)
          {
            FilteredLockHolds(log, db.events, db.collectionfields, db.links, db.indexedFrom, db.models, f, cf.field,
              l.position, m => FilterOk(l.filter) && Matches(locker.holds, l.filter, m));
          }
      }
    }
  }
}
