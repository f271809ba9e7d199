/** What holds of any run of commands: of ids, positions, reads and locks. */
module Runs {
  import opened Types
  import opened Replay
  import opened Tables
  import opened EventMigrations
  import opened Staircase
  import opened EventMigraters
  import opened LockIndex
  import opened LockLaws
  import opened Backend
  import opened WriteRequests
  import opened LockQueries
  import opened OccLockers
  import opened Datastores
  import opened Writers
  import opened Trimming
  import opened Registration
  import opened Finalizing
  import opened MigrationHandlers
  import opened Readers
  import opened Reservations
  import opened States

  /** No finalisation from the `i`-th command to the `j`-th. */
  predicate NoneFinalised(x: Trace, i: nat, j: nat)
    requires j <= |x.commands|
  {
    forall k | i <= k < j :: !x.commands[k].Finalize?
  }

  // ---------------------------------------------------------------- single commands

  /** Reservations and history are kept or continued, and the lock index starts where it did. */
  ghost predicate Keeps(s: State, t: State) {
    s.reservations <= t.reservations && LogPrefix(Past(s), Past(t)) && t.indexedFrom == s.indexedFrom
  }

  lemma WroteKeeps(holds: ModelSemantics, requests: seq<WriteRequest>, s: State, r: Result<()>, t: State)
    requires Wrote(holds, requests, s, r, t) && |s.positions| == |s.history|
    ensures Keeps(s, t)
  {
    hide Ran, Stopped, WrittenAt, Numbered, SequencesGrow;
    if r.Err? { assert Past(t) == Past(s); }
  }

  lemma ReservedKeeps(collection: Collection, amount: int, s: State, a: Answer, t: State)
    requires Reserved(collection, amount, s, a, t) && |s.positions| == |s.history|
    ensures Keeps(s, t)
  {
    assert Past(t) == Past(s);
  }

  lemma TrimmedKeeps(expired: set<Position>, s: State, r: Result<()>, t: State)
    requires Trimmed(expired, s, r, t) && |s.positions| == |s.history|
    ensures Keeps(s, t.(indexedFrom := s.indexedFrom))
    ensures t.indexedFrom == s.indexedFrom || t.indexedFrom in Expired(expired, s)
  {
    hide KeptFields, KeptLinks, Expired;
    assert Past(t) == Past(s);
  }

  lemma SamePastKeeps(s: State, t: State)
    requires Past(t) == Past(s) && t.reservations == s.reservations && t.indexedFrom == s.indexedFrom
    requires |s.positions| == |s.history|
    ensures Keeps(s, t)
  {}

  lemma OnlyMigratedKeeps(s: State, t: State)
    requires OnlyMigrated(s, t) && |s.positions| == |s.history|
    ensures Keeps(s, t)
  {
    SamePastKeeps(s, t);
  }

  lemma MigratedKeeps(code: Catalogue, count: nat, stopAfter: nat, s: State, r: Result<()>, t: State)
    requires MigratedWith(code, count, stopAfter, s, r, t) && |s.positions| == |s.history|
    ensures Keeps(s, t)
  {
    hide RunOutcome, TooNew, SourceWith, LastTarget, OnlyMigrated, AllAt, Keeps, PositionsOf, BaseIndex;
    if OnlyMigrated(s, t) {
      OnlyMigratedKeeps(s, t);
    } else {
      assert PositionsOf(t.positions) == PositionsOf(s.positions) && t == s.(positions := t.positions);
      SamePastKeeps(s, t);
    }
  }

  lemma ResetKeeps(count: nat, s: State, r: Result<()>, t: State)
    requires WasReset(count, s, r, t) && |s.positions| == |s.history|
    ensures Keeps(s, t)
  {
    hide TooNew, OnlyMigrated, Keeps;
    if t == s { SamePastKeeps(s, t); } else { OnlyMigratedKeeps(s, t); }
  }

  lemma EffectKeeps(code: Catalogue, holds: ModelSemantics, c: Command, s: State, a: Answer, t: State)
    requires Effect(code, holds, c, s, a, t) && !c.Finalize? && |s.positions| == |s.history|
    ensures s.reservations <= t.reservations && LogPrefix(Past(s), Past(t))
    ensures t.indexedFrom == s.indexedFrom || (c.TrimTables? && t.indexedFrom in Expired(c.expired, s))
  {
    hide Wrote, Reserved, Trimmed, MigratedWith, WasReset, LogPrefix, Expired;
    match c
    case WriteAll(requests) => WroteKeeps(holds, requests, s, a.r, t);
    case ReserveIds(collection, amount) => ReservedKeeps(collection, amount, s, a, t);
    case TrimTables(expired) => TrimmedKeeps(expired, s, a.r, t);
    case Migrate(count, stopAfter) => MigratedKeeps(code, count, stopAfter, s, a.r, t);
    case Reset(count) => ResetKeeps(count, s, a.r, t);
  }

  lemma FinalisedStart(code: Catalogue, count: nat, s: State, r: Result<()>, t: State)
    requires FinalisedWith(code, count, s, r, t)
    ensures t.indexedFrom in {s.indexedFrom, LastPosition(s.positions), LastPosition(t.positions)}
  {
    hide Finalised, SequencesFinal, SequencesGrow, Kept, RunOutcome, ModelsAt, Sequential, TooNew;
  }

  // ---------------------------------------------------------------- ids

  lemma {:induction false} ReservationsStay(x: Trace, i: nat, j: nat)
    requires Happened(x) && i <= j <= |x.answers| && NoneFinalised(x, i, j)
    ensures x.states[i].reservations <= x.states[j].reservations
    decreases j
  {
    hide StateOk, Effect, LogPrefix;
    if i < j {
      ReservationsStay(x, i, j - 1);
      StateParts(x, j - 1);
      assert StepOk(x, j - 1);
      EffectKeeps(x.code, x.holds, x.commands[j - 1], x.states[j - 1], x.answers[j - 1], x.states[j]);
    }
  }

  /** The command has reserved ids. */
  predicate Reserves(x: Trace, i: nat, collection: Collection)
    requires i < |x.answers| <= |x.commands|
  {
    x.commands[i].ReserveIds? && x.commands[i].collection == collection && x.answers[i].r.Ok?
  }

  /** The reservation that the answer stands for. */
  function RangeOf(collection: Collection, a: Answer): Reservation
    requires a.ids != []
  {
    Reservation(collection, a.ids[0], |a.ids|)
  }

  lemma ReservedThen(x: Trace, i: nat, collection: Collection)
    requires Happened(x) && i < |x.answers| && Reserves(x, i, collection)
    ensures Reserved(collection, x.commands[i].amount, x.states[i], x.answers[i], x.states[i + 1])
    ensures x.answers[i].ids != [] && RangeOf(collection, x.answers[i]) in x.states[i + 1].reservations
  {
    hide StateOk, StoreHolds;
    assert StepOk(x, i);
    var s, t := x.states[i], x.states[i + 1];
    assert t.reservations[|s.reservations|] == RangeOf(collection, x.answers[i]);
  }

  /**
   * Ids handed out later are greater than those handed out before, as long as the earlier reservation has
   * not been forgotten, which takes a finalisation.
   */
  lemma LaterIdsAreGreater(x: Trace, i: nat, j: nat, collection: Collection)
    requires Happened(x) && i < j < |x.answers| && Reserves(x, i, collection) && Reserves(x, j, collection)
    ensures x.answers[i].ids != []
    ensures RangeOf(collection, x.answers[i]) in x.states[j].reservations ==>
      forall m, n | m in x.answers[i].ids && n in x.answers[j].ids :: m < n
    ensures NoneFinalised(x, i, j) ==> RangeOf(collection, x.answers[i]) in x.states[j].reservations
  {
    hide EngineOk, StoreHolds, FromCatalogue;
    ReservedThen(x, i, collection);
    ReservedThen(x, j, collection);
    if NoneFinalised(x, i, j) { ReservationsStay(x, i + 1, j); }
    assert ReservationsOk(x.states[j].reservations, x.states[j].idSequences) by { assert StepOk(x, j); }
  }
  // ---------------------------------------------------------------- positions and history

  lemma {:induction false} ModelsExtend(ms: seq<ModelMigration>, log: Log, log': Log)
    requires ModelsMigrated(ms, log, log') && |log.ps| == |log.hist|
    ensures LogPrefix(log, log')
    decreases |ms|
  {
    hide Added;
    if ms != [] {
      var n := |ms| - 1;
      var before: Log :|
        LogPrefix(before, log') && ModelsMigrated(ms[..n], log, before) && Added(ms[n], log', |before.ps|);
      ModelsExtend(ms[..n], log, before);
      PrefixesJoin(log, before, log');
    }
  }

  lemma OutcomeExtends(ms: seq<ModelMigration>, log: Log, log': Log, r: Result<()>)
    requires ModelsOutcome(ms, log, log', r) && |log.ps| == |log.hist|
    ensures LogPrefix(log, log')
  {
    hide ModelsMigrated, LogPrefix, ModelRefusal, ReplayHistory;
    match r
    case Ok(_) => ModelsExtend(ms, log, log');
    case Err(error) =>
      var i: nat :| ModelsStoppedAt(ms, log, log', i, error);
      ModelsExtend(ms[..i], log, log');
  }

  lemma FinalisedExtends(ms: seq<Migration>, s: Source, log: Log, r: Result<()>)
    requires Sequential(ms) && |s.ps| == |s.hist| && s.migs == EventsIn(ms) && Finalised(ms, s, log, r)
    requires s.base <= |ms| + 1
    ensures s.ps <= log.ps
  {
    hide ModelsOutcome, Sequential, ModelsAt, EventsOf;
    var last := LastEventTarget(ms);
    if 1 <= s.base < last && ModelsAt(s, last, |s.ps|).Ok? {
      var hist :| MigratedTo(s, last, hist, ModelsAt(s, last, |s.ps|).value)
        && ModelsOutcome(ModelsFrom(ms, last), Log(s.ps, hist), log, r);
      OutcomeExtends(ModelsFrom(ms, last), Log(s.ps, hist), log, r);
    } else if last <= s.base {
      OutcomeExtends(ModelsFrom(ms, s.base), Log(s.ps, s.hist), log, r);
    }
  }

  lemma FinalisedPositions(code: Catalogue, count: nat, s: State, r: Result<()>, t: State)
    requires FinalisedWith(code, count, s, r, t)
    ensures Past(s).ps <= Past(t).ps
  {
    hide Finalised, SequencesFinal, SequencesGrow, Kept, RunOutcome, ModelsAt, Sequential;
    if !TooNew(s, count) && BaseIndex(s.positions) != count + 1 {
      FinalisedExtends(Known(code, count), SourceWith(code, s, count), Past(t), r);
    }
  }

  lemma StateParts(x: Trace, i: nat)
    requires Happened(x) && i < |x.answers|
    ensures var s := x.states[i];
      && |s.positions| == |s.history| && Ascending(Past(s).ps) && CacheOk(Past(s).ps, s.history, s.models)
      && ReservationsOk(s.reservations, s.idSequences)
  {
    hide EngineOk, IndexOk, HoldsHistory, SequencesOk, ReplayHistory, Effect, FromCatalogue, ReservationsOk, Ascending;
    assert StepOk(x, i);
  }

  /** No command takes a position away, or changes its number; only finalising changes what is behind it. */
  lemma PositionsStep(x: Trace, i: nat)
    requires Happened(x) && i < |x.answers|
    ensures Past(x.states[i]).ps <= Past(x.states[i + 1]).ps
    ensures !x.commands[i].Finalize? ==> LogPrefix(Past(x.states[i]), Past(x.states[i + 1]))
  {
    hide StateOk, Wrote, Reserved, Trimmed, MigratedWith, FinalisedWith, WasReset;
    StateParts(x, i);
    assert StepOk(x, i);
    if x.commands[i].Finalize? {
      FinalisedPositions(x.code, x.commands[i].count, x.states[i], x.answers[i].r, x.states[i + 1]);
    } else {
      EffectKeeps(x.code, x.holds, x.commands[i], x.states[i], x.answers[i], x.states[i + 1]);
    }
  }

  lemma {:induction false} PositionsStay(x: Trace, i: nat, j: nat)
    requires Happened(x) && i <= j <= |x.answers|
    ensures Past(x.states[i]).ps <= Past(x.states[j]).ps
    decreases j
  {
    hide StepOk, LogPrefix;
    if i < j {
      PositionsStay(x, i, j - 1);
      PositionsStep(x, j - 1);
    }
  }

  lemma {:induction false} HistoryStays(x: Trace, i: nat, j: nat)
    requires Happened(x) && i <= j <= |x.answers| && i < |x.answers| && NoneFinalised(x, i, j)
    ensures LogPrefix(Past(x.states[i]), Past(x.states[j]))
    decreases j
  {
    hide StepOk;
    StateParts(x, i);
    if i < j {
      HistoryStays(x, i, j - 1);
      PositionsStep(x, j - 1);
      PrefixesJoin(Past(x.states[i]), Past(x.states[j - 1]), Past(x.states[j]));
    }
  }

  lemma LaterPositions(ps: seq<Position>, qs: seq<Position>)
    requires ps <= qs && Ascending(qs)
    ensures forall i | |ps| <= i < |qs| :: ps == [] || ps[|ps| - 1] < qs[i]
    ensures ps != [] ==> ps[|ps| - 1] <= qs[|qs| - 1]
  {}

  /** What is read at a position stays what it is, until a finalisation. */
  lemma ReadsStay(x: Trace, i: nat, j: nat, p: Position)
    requires Happened(x) && i <= j < |x.answers| && NoneFinalised(x, i, j)
    requires 0 < p <= LastPosition(x.states[i].positions)
    ensures |x.states[i].positions| == |x.states[i].history| && |x.states[j].positions| == |x.states[j].history|
    ensures ModelsFor(Past(x.states[j]), Some(p)) == ModelsFor(Past(x.states[i]), Some(p))
  {
    hide StepOk, ReplayHistory, Horizon;
    StateParts(x, i);
    StateParts(x, j);
    HistoryStays(x, i, j);
    LaterPositions(Past(x.states[i]).ps, Past(x.states[j]).ps);
    LaterWrites(Past(x.states[i]), Past(x.states[j]), p);
  }

  // ---------------------------------------------------------------- locks

  /** No position above it was trimmed, or was there at a finalisation, before the `i`-th command. */
  ghost predicate Unforgotten(x: Trace, i: nat, p: Position)
    requires i <= |x.answers| <= |x.commands| && |x.states| == |x.answers| + 1
  {
    && x.states[0].indexedFrom <= p
    && forall k: nat | k < i :: ForgottenBy(x, k, p)
  }

  ghost predicate ForgottenBy(x: Trace, k: nat, p: Position)
    requires k < |x.answers| <= |x.commands| && |x.states| == |x.answers| + 1
  {
    match x.commands[k]
    case TrimTables(expired) => forall q | q in Expired(expired, x.states[k]) :: q <= p
    case Finalize(_) => LastPosition(x.states[k + 1].positions) <= p
    case _ => true
  }

  lemma IndexStep(x: Trace, i: nat)
    requires Happened(x) && i < |x.answers|
    ensures var c, s, t := x.commands[i], x.states[i], x.states[i + 1];
      || t.indexedFrom == s.indexedFrom
      || (c.TrimTables? && t.indexedFrom in Expired(c.expired, s))
      || (c.Finalize? && t.indexedFrom in {LastPosition(s.positions), LastPosition(t.positions)})
  {
    hide StateOk, Wrote, Reserved, Trimmed, MigratedWith, FinalisedWith, WasReset, Expired, LogPrefix;
    StateParts(x, i);
    assert StepOk(x, i);
    var s, t := x.states[i], x.states[i + 1];
    if x.commands[i].Finalize? {
      FinalisedStart(x.code, x.commands[i].count, s, x.answers[i].r, t);
    } else {
      EffectKeeps(x.code, x.holds, x.commands[i], s, x.answers[i], t);
    }
  }

  /** The lock index never starts after what was trimmed or finalised. */
  lemma {:induction false} IndexStarts(x: Trace, i: nat, p: Position)
    requires Happened(x) && i < |x.answers| && Unforgotten(x, i, p)
    ensures x.states[i].indexedFrom <= p
    decreases i
  {
    hide StateOk, Effect, Expired;
    if i > 0 {
      var s, t := x.states[i - 1], x.states[i];
      IndexStarts(x, i - 1, p);
      assert ForgottenBy(x, i - 1, p) && StepOk(x, i - 1);
      StateParts(x, i - 1);
      PositionsStep(x, i - 1);
      StateParts(x, i);
      IndexStep(x, i - 1);
      LaterPositions(Past(s).ps, Past(t).ps);
    }
  }

  /** The `j`-th request of the `i`-th command has been written. */
  ghost predicate Accepted(x: Trace, i: nat, j: nat) {
    && i < |x.answers| <= |x.commands| && |x.states| == |x.answers| + 1
    && x.commands[i].WriteAll? && x.answers[i].r.Ok? && j < |x.commands[i].requests|
  }

  /** The history when that request was checked. */
  function CheckedOn(x: Trace, i: nat, j: nat): Log
    requires i + 1 < |x.states| && |x.states[i].positions| + j <= |x.states[i + 1].positions|
    requires |x.states[i].positions| + j <= |x.states[i + 1].history|
  {
    var log, k := Past(x.states[i + 1]), |x.states[i].positions| + j;
    Log(log.ps[..k], log.hist[..k])
  }

  lemma WrittenThen(x: Trace, i: nat, j: nat)
    requires Happened(x) && Accepted(x, i, j)
    ensures var s, t := x.states[i], x.states[i + 1];
      && |s.positions| + j < |t.positions| == |t.history| && Ascending(Past(t).ps)
      && WrittenAt(Past(t), |s.positions| + j, s.indexedFrom, x.commands[i].requests[j], x.holds)
  {
    hide StateOk, Last, WrittenAt, Numbered, SequencesGrow, HoldsHistory, IndexOk, CacheOk, Ascending;
    assert StepOk(x, i);
  }

  /**
   * Optimistic locking, over a whole run: what an accepted request had locked was unchanged when it was
   * checked, provided that no lock on a field is older than what was trimmed or finalised before.
   */
  lemma AcceptedIsCurrent(x: Trace, i: nat, j: nat, first: Position)
    requires Happened(x) && Accepted(x, i, j)
    requires Unforgotten(x, i, first) && FieldLocksFrom(x.commands[i].requests[j], first)
    ensures |x.states[i].positions| + j <= |x.states[i + 1].positions| == |x.states[i + 1].history|
    ensures var log, request := CheckedOn(x, i, j), x.commands[i].requests[j];
      && ReplayHistory(log.ps, log.hist, |log.ps|).Ok? && FiltersOk(request.lockedCollectionFields)
      && LocksKept(log, ReplayHistory(log.ps, log.hist, |log.ps|).value, request, x.holds)
  {
    hide StepOk, LocksHold, LocksKept, FiltersOk;
    IndexStarts(x, i, first);
    WrittenThen(x, i, j);
    var t, k, log := Past(x.states[i + 1]), |x.states[i].positions| + j, CheckedOn(x, i, j);
    var request := x.commands[i].requests[j];
    HistoryFrame(t.ps, t.hist, log.ps, log.hist, k);
    HeldAreKept(
      log, ReplayHistory(log.ps, log.hist, k).value, x.states[i].indexedFrom, request, x.holds, first);
  }
  /** What a model, a field, or a field of all models of a collection read, where it was locked at `p`. */
  ghost predicate StillReads(request: WriteRequest, p: Position, before: Models, now: Models) {
    && (forall f | f in request.lockedFqids && request.lockedFqids[f] == p :: Lookup(now, f) == Lookup(before, f))
    && (forall f, field |
          (f, field) in request.lockedFqfields && request.lockedFqfields[(f, field)] == p && !IsReserved(field) ::
          Visible(now, f, field) == Visible(before, f, field))
    && (forall cf, f: Fqid |
          cf in request.lockedCollectionFields && request.lockedCollectionFields[cf] == Plain(p)
          && !IsReserved(cf.field) && f.collection == cf.collection ::
          Visible(now, f, cf.field) == Visible(before, f, cf.field))
  }

  lemma KeptStillReads(log: Log, before: Models, now: Models, request: WriteRequest, holds: ModelSemantics, p: Position)
    requires |log.ps| == |log.hist| && FiltersOk(request.lockedCollectionFields)
    requires LocksKept(log, now, request, holds) && ModelsUpTo(log, p) == Ok(before)
    ensures StillReads(request, p, before, now)
  {
    hide ModelsUpTo, Visible, Lookup, Matches, IsReserved, FiltersOk;
    forall f, field |
        (f, field) in request.lockedFqfields && request.lockedFqfields[(f, field)] == p && !IsReserved(field)
      ensures Visible(now, f, field) == Visible(before, f, field)
    {
      assert SameField(log, now, f, field, p);
    }
    forall cf, f: Fqid |
        cf in request.lockedCollectionFields && request.lockedCollectionFields[cf] == Plain(p) && !IsReserved(cf.field)
        && f.collection == cf.collection
      ensures Visible(now, f, cf.field) == Visible(before, f, cf.field)
    {
      assert SameField(log, now, f, cf.field, p);
    }
    forall f | f in request.lockedFqids && request.lockedFqids[f] == p
      ensures Lookup(now, f) == Lookup(before, f)
    {
      assert SameModel(log, now, f, p);
    }
  }

  /** The models of a state are those up to its last position, in every longer history. */
  lemma ModelsUpToLast(s: State, log: Log)
    requires LogPrefix(Past(s), log) && Ascending(log.ps) && s.positions != []
    requires CacheOk(Past(s).ps, s.history, s.models)
    ensures ModelsUpTo(log, LastPosition(s.positions)) == Ok(s.models)
  {
    hide ReplayHistory;
    var p, n := LastPosition(s.positions), |s.positions|;
    CountSplits(log.ps, p);
    assert log.ps[n - 1] == log.ps[..n][n - 1] == Past(s).ps[n - 1] == p;
    assert n < |log.ps| ==> log.ps[n - 1] < log.ps[n];
    assert CountUpTo(log.ps, p) == n;
    HistoryFrame(Past(s).ps, s.history, log.ps, log.hist, n);
  }

  lemma CheckedAfter(x: Trace, a: nat, i: nat, j: nat)
    requires Happened(x) && Accepted(x, i, j) && a <= i && NoneFinalised(x, a, i)
    ensures |x.states[i].positions| + j <= |x.states[i + 1].positions| == |x.states[i + 1].history|
    ensures LogPrefix(Past(x.states[a]), CheckedOn(x, i, j)) && Ascending(CheckedOn(x, i, j).ps)
    ensures |CheckedOn(x, i, j).ps| == |CheckedOn(x, i, j).hist|
  {
    hide StepOk, WrittenAt;
    WrittenThen(x, i, j);
    StateParts(x, i);
    HistoryStays(x, a, i);
    PositionsStep(x, i);
    var log, t, n := CheckedOn(x, i, j), Past(x.states[i + 1]), |x.states[a].positions|;
    assert log.ps[..n] == t.ps[..|x.states[i].positions|][..n];
    assert log.hist[..n] == t.hist[..|x.states[i].positions|][..n];
  }

  /**
   * So a write that locks what it has read at the then last position, and is accepted without a
   * finalisation in between, is checked while all of it still reads as it did.
   */
  lemma ReadThenWrite(x: Trace, a: nat, i: nat, j: nat, first: Position)
    requires Happened(x) && Accepted(x, i, j) && a <= i && NoneFinalised(x, a, i) && x.states[a].positions != []
    requires Unforgotten(x, i, first) && FieldLocksFrom(x.commands[i].requests[j], first)
    ensures |x.states[i].positions| + j <= |x.states[i + 1].positions| == |x.states[i + 1].history|
    ensures var log := CheckedOn(x, i, j);
      && ReplayHistory(log.ps, log.hist, |log.ps|).Ok?
      && StillReads(x.commands[i].requests[j], LastPosition(x.states[a].positions), x.states[a].models,
           ReplayHistory(log.ps, log.hist, |log.ps|).value)
  {
    hide StepOk, LocksKept, FiltersOk, StillReads, ReplayHistory, LogPrefix, Ascending, CheckedOn, Unforgotten;
    AcceptedIsCurrent(x, i, j, first);
    CheckedAfter(x, a, i, j);
    StateParts(x, a);
    var log, request := CheckedOn(x, i, j), x.commands[i].requests[j];
    ModelsUpToLast(x.states[a], log);
    KeptStillReads(log, x.states[a].models, ReplayHistory(log.ps, log.hist, |log.ps|).value, request, x.holds,
      LastPosition(x.states[a].positions));
  }
}
