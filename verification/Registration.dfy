/** The migrations a handler can register: numbered from 2 on, event migrations before model migrations. */
module Registration {
  import opened Types
  import opened EventMigrations
  import opened DbEvents

  type ValidEvent = r: RequestEvent | ValidRequest(r) witness RequestDelete(Fqid("", 0))

  /** A model migration reads the models and answers with request events, if any. */
  datatype ModelMigration = ModelMigration(migrate: Models -> Result<Option<seq<ValidEvent>>>)

  datatype Migration = EventKind(target: int, event: EventMigration) | ModelKind(target: int, model: ModelMigration)

  /** A stable insertion, as in a sort by the target index. */
  function InsertByTarget(ms: seq<Migration>, m: Migration): seq<Migration> {
    if ms == [] || ms[|ms| - 1].target <= m.target then ms + [m]
    else InsertByTarget(ms[..|ms| - 1], m) + [ms[|ms| - 1]]
  }

  function SortByTarget(ms: seq<Migration>): seq<Migration> {
    if ms == [] then [] else InsertByTarget(SortByTarget(ms[..|ms| - 1]), ms[|ms| - 1])
  }

  ghost predicate SortedByTarget(ms: seq<Migration>) {
    forall i, j | 0 <= i < j < |ms| :: ms[i].target <= ms[j].target
  }

  lemma {:induction false} InsertKeeps(ms: seq<Migration>, m: Migration)
    ensures multiset(InsertByTarget(ms, m)) == multiset(ms) + multiset{m}
    decreases |ms|
  {
    if ms != [] && ms[|ms| - 1].target > m.target {
      var front, last := ms[..|ms| - 1], ms[|ms| - 1];
      assert ms == front + [last];
      InsertKeeps(front, m);
    }
  }

  lemma {:induction false} InsertSorts(ms: seq<Migration>, m: Migration)
    requires SortedByTarget(ms)
    ensures SortedByTarget(InsertByTarget(ms, m))
    ensures forall x | x in InsertByTarget(ms, m) :: x in ms || x == m
    decreases |ms|
  {
    if ms != [] && ms[|ms| - 1].target > m.target {
      var front, last := ms[..|ms| - 1], ms[|ms| - 1];
      InsertSorts(front, m);
      var r := InsertByTarget(front, m);
      forall i | 0 <= i < |r|
        ensures r[i].target <= last.target
      {
        assert r[i] in r;
      }
    }
  }

  lemma {:induction false} SortSorts(ms: seq<Migration>)
    ensures SortedByTarget(SortByTarget(ms)) && multiset(SortByTarget(ms)) == multiset(ms)
    decreases |ms|
  {
    if ms != [] {
      var front, last := ms[..|ms| - 1], ms[|ms| - 1];
      assert ms == front + [last];
      SortSorts(front);
      InsertSorts(SortByTarget(front), last);
      InsertKeeps(SortByTarget(front), last);
    }
  }

  lemma {:induction false} SortedAlready(ms: seq<Migration>)
    requires SortedByTarget(ms)
    ensures SortByTarget(ms) == ms
    decreases |ms|
  {
    if ms != [] {
      var front, last := ms[..|ms| - 1], ms[|ms| - 1];
      assert SortedByTarget(front);
      SortedAlready(front);
      assert front != [] ==> front[|front| - 1].target <= last.target;
      assert ms == front + [last];
    }
  }

  /** Numbered sequentially from 2 on, and no event migration after a model migration. */
  predicate Sequential(ms: seq<Migration>) {
    forall i | 0 <= i < |ms| ::
      ms[i].target == i + 2 && (ms[i].EventKind? ==> forall j | 0 <= j < i :: ms[j].EventKind?)
  }

  /** How many migrations at the front are event migrations. */
  function EventCount(ms: seq<Migration>): (n: nat)
    ensures n <= |ms| && (forall i | 0 <= i < n :: ms[i].EventKind?) && (n < |ms| ==> !ms[n].EventKind?)
  {
    if ms == [] || !ms[0].EventKind? then 0 else 1 + EventCount(ms[1..])
  }

  /** The event migrations the event migrater is initialised with. */
  function EventsIn(ms: seq<Migration>): (es: seq<EventMigration>)
    ensures |es| == EventCount(ms) && forall i | 0 <= i < |es| :: ms[i] == EventKind(ms[i].target, es[i])
  {
    seq(EventCount(ms), i requires 0 <= i < EventCount(ms) => ms[i].event)
  }

  function LastEventTarget(ms: seq<Migration>): int { EventCount(ms) + 1 }

  /** Behind the first model migration there are only model migrations. */
  lemma ModelsLast(ms: seq<Migration>)
    requires Sequential(ms)
    ensures forall i | EventCount(ms) <= i < |ms| :: ms[i].ModelKind?
  {}

  /** The model migrations above a datastore at index `base`. */
  function ModelsFrom(ms: seq<Migration>, base: int): (ds: seq<ModelMigration>)
    requires Sequential(ms) && LastEventTarget(ms) <= base <= |ms| + 1
    ensures |ds| == |ms| + 1 - base
    ensures forall i | 0 <= i < |ds| :: ms[base - 1 + i] == ModelKind(ms[base - 1 + i].target, ds[i])
  {
    ModelsLast(ms);
    seq(|ms| + 1 - base, i requires 0 <= i < |ms| + 1 - base && ms[base - 1 + i].ModelKind? => ms[base - 1 + i].model)
  }
}
