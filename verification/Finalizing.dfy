/** What finalising makes of the tables: the migrated events become the events. */
module Finalizing {
  import opened Types
  import opened Replay
  import opened Tables
  import opened EventMigrations
  import opened Staircase
  import opened LockIndex
  import opened EventMigraters
  import opened WriteLaws
  import opened Backend
  import opened Registration
  import opened Simulations
  import opened FieldMigrations
  import opened DroppedEvents
  import opened PositionFree

  /** The events of the position at `i`. */
  ghost function EventsOf(s: Source, target: int, i: nat): Result<seq<Event>> {
    if s.Has(target, i + 1) then Evs(s, target, i + 1) else Err(BadCoding)
  }

  /** The history at index `target`, and the models it replays to. */
  ghost predicate MigratedTo(s: Source, target: int, hist: seq<seq<Event>>, models: Models) {
    && |hist| == |s.ps| && s.Has(target, |s.ps|)
    && (forall i: nat | i < |hist| :: EventsOf(s, target, i) == Ok(hist[i]))
    && ModelsAt(s, target, |s.ps|) == Ok(models)
  }

  /** What running the event migrations comes to: the error of the first position that cannot be migrated, if any. */
  ghost function ChainOutcome(s: Source, target: int): Result<()>
    requires s.Has(target, |s.ps|)
  {
    match ModelsAt(s, target, |s.ps|)
    case Ok(_) => Ok(())
    case Err(error) => Err(error)
  }

  lemma {:induction false} ErrorStays(s: Source, target: int, k: nat, n: nat)
    requires k <= n && s.Has(target, n) && s.Has(target, k) && ModelsAt(s, target, k).Err?
    ensures ModelsAt(s, target, n) == ModelsAt(s, target, k)
    decreases n
  {
    hide Evs, ReplayEvents;
    if k < n { ErrorStays(s, target, k, n - 1); }
  }

  /** Positions only get to the target if the chain has models there. */
  lemma AllAtIsOk(s: Source, mp: MigrationPositions, mev: EventTable, frames: Frames, target: int)
    requires EngineOk(s, mp, mev, frames) && |s.ps| > 0 && AllAt(s, mp, target) && s.base < target
    ensures s.Has(target, |s.ps|) && ModelsAt(s, target, |s.ps|).Ok?
  {
    hide Evs, ModelsAt, Holds, Falling, IsStaircase, FramesReplay, SourceOk, IndicesOk;
    assert Effective(s, mp, |s.ps| - 1) == target;
    assert EventsAt(s, mev, |s.ps| - 1, mp[s.ps[|s.ps| - 1]]);
  }

  /** A replayable chain is a history of its own. */
  lemma {:induction false} ChainReplays(s: Source, target: int, hist: seq<seq<Event>>, k: nat)
    requires k <= |hist| == |s.ps| && s.Has(target, k)
    requires forall i: nat | i < k :: EventsOf(s, target, i) == Ok(hist[i])
    ensures ModelsAt(s, target, k) == ReplayHistory(s.ps, hist, k)
    decreases k
  {
    hide Evs, ReplayEvents;
    if k > 0 {
      assert EventsOf(s, target, k - 1) == Ok(hist[k - 1]);
      ChainReplays(s, target, hist, k - 1);
    }
  }

  ghost function MigratedHistory(s: Source, target: int, k: nat): (hist: seq<seq<Event>>)
    requires forall i: nat | i < k :: EventsOf(s, target, i).Ok?
    ensures |hist| == k && forall i: nat | i < k :: EventsOf(s, target, i) == Ok(hist[i])
  {
    if k == 0 then [] else MigratedHistory(s, target, k - 1) + [EventsOf(s, target, k - 1).value]
  }

  /** With all positions at the target, the migration tables hold a complete datastore. */
  lemma MigratedStore(s: Source, mp: MigrationPositions, mev: EventTable, frames: Frames, target: int)
    returns (hist: seq<seq<Event>>)
    requires EngineOk(s, mp, mev, frames) && |s.ps| > 0
    requires 1 <= s.base < target && AllAt(s, mp, target)
    ensures var last := s.ps[|s.ps| - 1];
      && (last, target) in frames && MigratedTo(s, target, hist, frames[(last, target)])
      && HoldsHistory(mev, s.ps, hist) && CacheOk(s.ps, hist, frames[(last, target)])
  {
    hide Evs, ModelsAt, Holds, Falling;
    var n := |s.ps|;
    assert Effective(s, mp, n - 1) == target;
    assert s.ps[n - 1] in mp && mp[s.ps[n - 1]] <= |s.migs| + 1;
    assert forall p | p in mp :: p in s.ps;
    forall i: nat | i < n
      ensures EventsAt(s, mev, i, target)
    {
      assert Effective(s, mp, i) == target;
      assert EventsAt(s, mev, i, mp[s.ps[i]]);
    }
    forall i: nat | i < n
      ensures EventsOf(s, target, i).Ok?
    {
      assert EventsAt(s, mev, i, target);
    }
    hist := MigratedHistory(s, target, n);
    assert OnStair(s, mp, n - 1, target);
    assert (s.ps[n - 1], target) in frames;
    ChainReplays(s, target, hist, n);
    forall i | 0 <= i < n
      ensures Holds(mev, s.ps[i], hist[i])
    {
      assert EventsAt(s, mev, i, target) && EventsOf(s, target, i) == Ok(hist[i]);
    }
  }

  /** Migrations that change nothing leave every model at every position unchanged after finalising. */
  lemma NoopsFinalised(s: Source, target: int, hist: seq<seq<Event>>, models: Models, k: nat)
    requires SourceOk(s) && MigratedTo(s, target, hist, models) && k <= |s.ps|
    requires forall j | s.base - 1 <= j < target - 1 :: Implements(s.migs[j], NoopSimulation())
    requires NoNoops(s, s.base, k)
    ensures ReplayHistory(s.ps, hist, k) == ReplayHistory(s.ps, s.hist, k)
  {
    hide Evs, ModelsAt, NoNoops, Ascending, Implements;
    ChainReplays(s, target, hist, k);
    BaseModels(s, k);
    HistoryPrefix(s.ps, s.hist, k, |s.ps|);
    NoopsKeepModels(s, s.base, target, k);
  }

  /** They do so up to meta positions if every event that the first of them drops goes unnoticed. */
  lemma NoopsFinalisedApart(s: Source, target: int, hist: seq<seq<Event>>, models: Models, k: nat)
    requires SourceOk(s) && MigratedTo(s, target, hist, models) && k <= |s.ps| && s.base < target
    requires forall j | s.base - 1 <= j < target - 1 :: Implements(s.migs[j], NoopSimulation())
    requires UnnoticedThroughout(s, s.base, k)
    ensures ReplayHistory(s.ps, hist, k).Ok? && ReplayHistory(s.ps, s.hist, k).Ok?
    ensures SameApart(ReplayHistory(s.ps, s.hist, k).value, ReplayHistory(s.ps, hist, k).value)
  {
    hide Evs, ModelsAt, UnnoticedThroughout, Ascending, Implements, SameApart;
    ChainReplays(s, target, hist, k);
    BaseModels(s, k);
    HistoryPrefix(s.ps, s.hist, k, |s.ps|);
    NoopsKeepExactly(s, s.base, target, k);
  }

  /** `max(id) + 1` over the models of each collection. */
  method FillIdSequences(models: Models) returns (sequences: IdSequences)
    ensures SequencesOk(models, sequences)
    ensures forall c | c in sequences :: exists f | f in models :: f.collection == c && sequences[c] == f.id + 1
  {
    sequences := map[];
    var todo := models.Keys;
    while todo != {}
      invariant todo <= models.Keys
      invariant forall f | f in models && f !in todo :: f.collection in sequences && f.id < sequences[f.collection]
      invariant forall c | c in sequences :: exists f | f in models :: f.collection == c && sequences[c] == f.id + 1
      decreases |todo|
    {
      var f := Pick(todo);
      todo := todo - {f};
      if f.collection !in sequences || sequences[f.collection] < f.id + 1 {
        sequences := sequences[f.collection := f.id + 1];
      }
    }
  }

  function WithIndex(rows: seq<PositionRow>, mi: int): (rows': seq<PositionRow>)
    ensures PositionsOf(rows') == PositionsOf(rows) && Uniform(rows', mi)
  {
    seq(|rows|, i requires 0 <= i < |rows| => rows[i].(migrationIndex := mi))
  }

  /** The lowest index in `migration_positions`. */
  method MinIndex(mp: MigrationPositions) returns (min: Option<int>)
    ensures min.None? <==> mp == map[]
    ensures min.Some? ==> (exists p | p in mp :: mp[p] == min.value) && forall p | p in mp :: min.value <= mp[p]
  {
    min := None;
    var todo := mp.Keys;
    while todo != {}
      invariant todo <= mp.Keys
      invariant min.None? <==> todo == mp.Keys
      invariant min.Some? ==> exists p | p in mp :: mp[p] == min.value
      invariant min.Some? ==> forall p | p in mp && p !in todo :: min.value <= mp[p]
      decreases |todo|
    {
      var p := Pick(todo);
      todo := todo - {p};
      if min.None? || mp[p] < min.value {
        min := Some(mp[p]);
      }
    }
  }

  /** The highest index in `migration_positions`. */
  method MaxIndex(mp: MigrationPositions) returns (max: Option<int>)
    ensures max.None? <==> mp == map[]
    ensures max.Some? ==> (exists p | p in mp :: mp[p] == max.value) && forall p | p in mp :: mp[p] <= max.value
  {
    max := None;
    var todo := mp.Keys;
    while todo != {}
      invariant todo <= mp.Keys
      invariant max.None? <==> todo == mp.Keys
      invariant max.Some? ==> exists p | p in mp :: mp[p] == max.value
      invariant max.Some? ==> forall p | p in mp && p !in todo :: mp[p] <= max.value
      decreases |todo|
    {
      var p := Pick(todo);
      todo := todo - {p};
      if max.None? || mp[p] > max.value {
        max := Some(mp[p]);
      }
    }
  }

  lemma {:induction false} DistinctCount(ps: seq<Position>)
    requires forall i, j | 0 <= i < j < |ps| :: ps[i] != ps[j]
    ensures |set p | p in ps| == |ps|
    decreases |ps|
  {
    if ps != [] {
      var front, last := ps[..|ps| - 1], ps[|ps| - 1];
      DistinctCount(front);
      assert (set p | p in ps) == (set p | p in front) + {last};
      assert last !in front;
    }
  }

  lemma SubsetOfSize(a: set<Position>, b: set<Position>)
    requires a <= b && |a| == |b|
    ensures a == b
  {
    assert b == a + (b - a);
    assert |b| == |a| + |b - a|;
  }

  /** All positions are at the target just when the lowest index is and the tables are equally long. */
  lemma AllMigrated(s: Source, mp: MigrationPositions, min: int, target: int)
    requires Ascending(s.ps) && IndicesOk(s, mp) && |s.ps| > 0 && 1 <= s.base < target
    requires forall p | p in mp :: mp[p] <= target
    requires if mp == map[] then min == s.base
      else (exists p | p in mp :: mp[p] == min) && forall p | p in mp :: min <= mp[p]
    ensures min == target && |s.ps| == |mp| <==> AllAt(s, mp, target)
  {
    var all := set p | p in s.ps;
    DistinctCount(s.ps);
    forall p | p in mp.Keys
      ensures p in all
    {
      assert p in mp && p in s.ps;
    }
    assert |mp| == |mp.Keys|;
    if min == target && |s.ps| == |mp| {
      SubsetOfSize(mp.Keys, all);
      forall i: nat | i < |s.ps|
        ensures Effective(s, mp, i) == target
      {
        assert s.ps[i] in all && s.ps[i] in mp;
      }
    }
    if AllAt(s, mp, target) {
      forall p | p in all
        ensures p in mp && mp[p] == target
      {
        var i: nat :| i < |s.ps| && s.ps[i] == p;
        assert Effective(s, mp, i) == target;
      }
      assert mp.Keys == all;
      assert s.ps[0] in mp;
    }
  }

  // ---------------------------------------------------------------- model migrations

  /** What one model migration has added to a log of `n` positions. */
  ghost predicate Added(m: ModelMigration, log: Log, n: nat)
    requires n <= |log.ps| == |log.hist|
  {
    && ReplayHistory(log.ps, log.hist, n).Ok?
    && var models := ReplayHistory(log.ps, log.hist, n).value;
      var answer := m.migrate(models);
      && answer.Ok?
      && var events := if answer.value.None? then [] else answer.value.value;
      && (events == [] ==> |log.ps| == n)
      && (events != [] ==>
            && |log.ps| == n + 1 && LegalAll(models, events, log.ps[n])
            && log.hist[n] == AllEvents(models, events, log.ps[n]))
  }

  /** Each of the model migrations ran on the models the ones before it had left behind. */
  ghost predicate ModelsMigrated(ms: seq<ModelMigration>, log: Log, log': Log)
    decreases |ms|
  {
    if ms == [] then log' == log
    else exists before: Log ::
      LogPrefix(before, log') && ModelsMigrated(ms[..|ms| - 1], log, before) && Added(ms[|ms| - 1], log', |before.ps|)
  }

  /** Why a model migration fails, if it does: its code raises, or a request event of it is refused. */
  ghost function ModelRefusal(m: ModelMigration, models: Models): Option<Error> {
    var answer := m.migrate(models);
    if answer.Err? then Some(answer.error)
    else if answer.value.None? || answer.value.value == [] then None
    else RefusedWith(models, answer.value.value, 0)
  }

  ghost predicate ModelsStoppedAt(ms: seq<ModelMigration>, log: Log, log': Log, i: nat, error: Error) {
    && i < |ms| && ModelsMigrated(ms[..i], log, log') && |log'.ps| == |log'.hist|
    && ReplayHistory(log'.ps, log'.hist, |log'.ps|).Ok?
    && ModelRefusal(ms[i], ReplayHistory(log'.ps, log'.hist, |log'.ps|).value) == Some(error)
  }

  /** All model migrations ran, or those before the first that fails, which gives the error. */
  ghost predicate ModelsOutcome(ms: seq<ModelMigration>, log: Log, log': Log, r: Result<()>) {
    match r
    case Ok(_) => ModelsMigrated(ms, log, log')
    case Err(error) => exists i: nat :: ModelsStoppedAt(ms, log, log', i, error)
  }

  /**
   * What an uninterrupted `finalize` comes to. Below the last event migration the event migrations
   * decide: on their error nothing is finalised, otherwise the history is the migrated one. The model
   * migrations then add to it, up to the first that fails.
   */
  ghost predicate Finalised(ms: seq<Migration>, s: Source, log: Log, r: Result<()>)
    requires Sequential(ms) && |s.ps| == |s.hist| && s.migs == EventsIn(ms)
  {
    var last := LastEventTarget(ms);
    && (s.base < 1 ==> r.Ok? && log == Log(s.ps, s.hist))
    && (1 <= s.base < last ==>
          match ModelsAt(s, last, |s.ps|)
          case Err(error) => r == Err(error) && log == Log(s.ps, s.hist)
          case Ok(models) => exists hist ::
            MigratedTo(s, last, hist, models) && ModelsOutcome(ModelsFrom(ms, last), Log(s.ps, hist), log, r))
    && (last <= s.base <= |ms| + 1 ==> ModelsOutcome(ModelsFrom(ms, s.base), Log(s.ps, s.hist), log, r))
  }

  /** The sequences of the ids are right, and as low as possible. */
  ghost predicate Rebuilt(models: Models, sequences: IdSequences) {
    && SequencesOk(models, sequences)
    && forall c | c in sequences :: exists f | f in models :: f.collection == c && sequences[c] == f.id + 1
  }

  ghost predicate RebuiltThenGrown(models: Models, after: IdSequences, exactly: bool) {
    exists mid :: Rebuilt(models, mid) && SequencesGrow(mid, after) && (exactly ==> mid == after)
  }

  /** Finalising events rebuilds the sequences from the models; model migrations only raise them. */
  ghost predicate SequencesFinal(ms: seq<Migration>, s: Source, before: IdSequences, after: IdSequences)
    requires |s.ps| == |s.hist| && s.migs == EventsIn(ms)
  {
    var last := LastEventTarget(ms);
    if 1 <= s.base < last && ModelsAt(s, last, |s.ps|).Ok?
    then RebuiltThenGrown(ModelsAt(s, last, |s.ps|).value, after, last == |ms| + 1)
    else SequencesGrow(before, after)
  }

  lemma FinalisedByEvents(
    ms: seq<Migration>, s: Source, hist: seq<seq<Event>>, models: Models, log: Log, r: Result<()>,
    before: IdSequences, mid: IdSequences, after: IdSequences)
    requires Sequential(ms) && |s.ps| == |s.hist| && s.migs == EventsIn(ms) && 1 <= s.base < LastEventTarget(ms)
    requires MigratedTo(s, LastEventTarget(ms), hist, models)
    requires ModelsOutcome(ModelsFrom(ms, LastEventTarget(ms)), Log(s.ps, hist), log, r)
    requires Rebuilt(models, mid) && SequencesGrow(mid, after)
    requires LastEventTarget(ms) == |ms| + 1 ==> mid == after
    ensures Finalised(ms, s, log, r) && SequencesFinal(ms, s, before, after)
  {
    hide ModelsOutcome, ModelsAt, Rebuilt, SequencesGrow;
  }

  /** Without model migrations, the sequences are those of the models finalising leaves. */
  lemma RebuiltFromModels(
    ms: seq<Migration>, s: Source, log: Log, models: Models, before: IdSequences, after: IdSequences)
    requires Sequential(ms) && |s.ps| == |s.hist| && s.migs == EventsIn(ms)
    requires 1 <= s.base < LastEventTarget(ms) == |ms| + 1 && CacheOk(log.ps, log.hist, models)
    requires Finalised(ms, s, log, Ok(())) && SequencesFinal(ms, s, before, after)
    ensures Rebuilt(models, after)
  {
    hide ModelsAt, Rebuilt, SequencesGrow, ReplayHistory, Sequential, EventsOf;
    var last, n := LastEventTarget(ms), |s.ps|;
    assert ModelsAt(s, last, n).Ok?;
    var hist :| MigratedTo(s, last, hist, ModelsAt(s, last, n).value)
      && ModelsOutcome(ModelsFrom(ms, last), Log(s.ps, hist), log, Ok(()));
    ChainReplays(s, last, hist, n);
  }

  lemma OneModelMigrationMore(ms: seq<ModelMigration>, i: nat, log: Log, before: Log, log': Log)
    requires i < |ms| && LogPrefix(before, log') && ModelsMigrated(ms[..i], log, before)
    requires Added(ms[i], log', |before.ps|)
    ensures ModelsMigrated(ms[..i + 1], log, log')
  {
    hide Added;
    assert ms[..i + 1][..i] == ms[..i] && ms[..i + 1][i] == ms[i];
  }
}
