/** One event migration on one position, and the events and models it yields for a whole history. */
module EventMigrations {
  import opened Types
  import opened Replay

  datatype ModelStatus = StatusCreate | StatusDelete

  /** What a migration can see besides the event and the two accessors. */
  datatype Context = Context(position: Position, status: map<Fqid, ModelStatus>, seen: seq<Event>)

  /** The code of a registered event migration: deterministic, possibly raising. */
  datatype EventMigration = EventMigration(
    migrateEvent: (Context, Event, Models, Models) -> Result<Option<seq<Event>>>,
    additionalEvents: (Context, Models, Models) -> Result<seq<Event>>)

  /** The events a migration wrote, with the old and the new data after them. */
  datatype Migrated = Migrated(events: seq<Event>, src: Models, dst: Models)

  predicate AllEmpty(updates: ListUpdates) { forall f | f in updates :: updates[f] == [] }

  /** The events `_filter_noop_events` drops. */
  predicate IsNoop(e: Event) {
    match e
    case Update(_, data) => data == map[]
    case DeleteFields(_, fields) => fields == []
    case ListUpdate(_, add, remove) => AllEmpty(add) && AllEmpty(remove)
    case _ => false
  }

  function DropNoops(es: seq<Event>): (r: seq<Event>)
    ensures forall e :: e in r <==> e in es && !IsNoop(e)
  {
    if es == [] then [] else (if IsNoop(es[0]) then [] else [es[0]]) + DropNoops(es[1..])
  }

  /** The status each model has after the original events: a delete is never overwritten. */
  function StatusAfter(es: seq<Event>): map<Fqid, ModelStatus> {
    if es == [] then map[]
    else
      var status, e := StatusAfter(es[..|es| - 1]), es[|es| - 1];
      if (e.Create? || e.Delete?) && !(e.fqid in status && status[e.fqid].StatusDelete?)
      then status[e.fqid := if e.Create? then StatusCreate else StatusDelete]
      else status
  }

  ghost predicate HasCreate(es: seq<Event>, f: Fqid) { exists e | e in es :: e.Create? && e.fqid == f }

  ghost predicate HasStatus(status: map<Fqid, ModelStatus>, f: Fqid, s: ModelStatus) { Get(status, f) == Some(s) }

  /** A model is deleted if any of the events deletes it, and created if one creates it and none deletes it. */
  lemma {:induction false} StatusMeans(es: seq<Event>, f: Fqid)
    ensures HasStatus(StatusAfter(es), f, StatusDelete) <==> Delete(f) in es
    ensures HasStatus(StatusAfter(es), f, StatusCreate) <==> HasCreate(es, f) && Delete(f) !in es
    decreases |es|
  {
    if es != [] {
      var front, last := es[..|es| - 1], es[|es| - 1];
      assert es == front + [last];
      StatusMeans(front, f);
      assert HasCreate(es, f) <==> HasCreate(front, f) || (last.Create? && last.fqid == f);
    }
  }

  function MigrateOne(m: EventMigration, ctx: Context, e: Event, done: Migrated): Result<Migrated> {
    if !e.WellFormed() then Err(BadEvent)
    else
      var answer :- m.migrateEvent(ctx, e, done.src, done.dst);
      var translated := DropNoops(if answer.None? then [e] else answer.value);
      var src :- ApplyEvent(done.src, e, ctx.position);
      var dst :- ReplayEvents(done.dst, translated, ctx.position);
      Ok(Migrated(done.events + translated, src, dst))
  }

  function MigrateQueue(
    m: EventMigration, pos: Position, status: map<Fqid, ModelStatus>, queue: seq<Event>, src: Models, dst: Models)
    : Result<Migrated>
  {
    if queue == [] then Ok(Migrated([], src, dst))
    else
      var seen := queue[..|queue| - 1];
      var done :- MigrateQueue(m, pos, status, seen, src, dst);
      MigrateOne(m, Context(pos, status, seen), queue[|queue| - 1], done)
  }

  function MigrateEvents(m: EventMigration, pos: Position, es: seq<Event>, src: Models, dst: Models): Result<Migrated> {
    var status, queue := StatusAfter(es), CreatesFirst(es);
    var done :- MigrateQueue(m, pos, status, queue, src, dst);
    var extra :- m.additionalEvents(Context(pos, status, queue), done.src, done.dst);
    var final :- ReplayEvents(done.dst, extra, pos);
    Ok(Migrated(done.events + extra, done.src, final))
  }

  lemma {:induction false} MigrateQueueReplays(
    m: EventMigration, pos: Position, status: map<Fqid, ModelStatus>, queue: seq<Event>, src: Models, dst: Models)
    requires MigrateQueue(m, pos, status, queue, src, dst).Ok?
    ensures var done := MigrateQueue(m, pos, status, queue, src, dst).value;
      && ReplayEvents(src, queue, pos) == Ok(done.src)
      && ReplayEvents(dst, done.events, pos) == Ok(done.dst)
    decreases |queue|
  {
    if queue != [] {
      var seen, e := queue[..|queue| - 1], queue[|queue| - 1];
      MigrateQueueReplays(m, pos, status, seen, src, dst);
      var before := MigrateQueue(m, pos, status, seen, src, dst).value;
      var answer := m.migrateEvent(Context(pos, status, seen), e, before.src, before.dst).value;
      ReplayConcat(dst, before.events, DropNoops(if answer.None? then [e] else answer.value), pos);
    }
  }

  /** The new accessor holds the replay of the returned events, the old one that of the given events. */
  lemma MigrateEventsReplays(m: EventMigration, pos: Position, es: seq<Event>, src: Models, dst: Models)
    requires MigrateEvents(m, pos, es, src, dst).Ok?
    ensures var done := MigrateEvents(m, pos, es, src, dst).value;
      && ReplayEvents(src, CreatesFirst(es), pos) == Ok(done.src)
      && ReplayEvents(dst, done.events, pos) == Ok(done.dst)
  {
    var status, queue := StatusAfter(es), CreatesFirst(es);
    MigrateQueueReplays(m, pos, status, queue, src, dst);
    var done := MigrateQueue(m, pos, status, queue, src, dst).value;
    ReplayConcat(dst, done.events,
      m.additionalEvents(Context(pos, status, queue), done.src, done.dst).value, pos);
  }

  // ---------------------------------------------------------------- what a migration is asked

  function Flat(kept: seq<seq<Event>>): seq<Event> {
    if kept == [] then [] else Flat(kept[..|kept| - 1]) + kept[|kept| - 1]
  }

  /**
   * The migration is asked about the `i`-th event with the events before it seen, the old models as these
   * have left them, and the new models as the answers before have left them. What is kept of its answer
   * is all but the empty events; no answer stands for the event itself.
   */
  ghost predicate Asked(
    m: EventMigration, pos: Position, status: map<Fqid, ModelStatus>, queue: seq<Event>, src: Models, dst: Models,
    kept: seq<seq<Event>>, i: nat)
    requires i < |queue| && i < |kept|
  {
    var before, written := ReplayEvents(src, queue[..i], pos), ReplayEvents(dst, Flat(kept[..i]), pos);
    && before.Ok? && written.Ok?
    && var answer := m.migrateEvent(Context(pos, status, queue[..i]), queue[i], before.value, written.value);
      && answer.Ok? && kept[i] == DropNoops(if answer.value.None? then [queue[i]] else answer.value.value)
  }

  ghost predicate AllAsked(
    m: EventMigration, pos: Position, status: map<Fqid, ModelStatus>, queue: seq<Event>, src: Models, dst: Models,
    kept: seq<seq<Event>>)
  {
    |kept| == |queue| && forall i: nat | i < |queue| :: Asked(m, pos, status, queue, src, dst, kept, i)
  }

  /** One more event, one more answer. */
  lemma OneMoreAsked(
    m: EventMigration, pos: Position, status: map<Fqid, ModelStatus>, queue: seq<Event>, src: Models, dst: Models,
    kept: seq<seq<Event>>)
    requires queue != [] && |kept| == |queue|
    ensures var n := |queue| - 1;
      AllAsked(m, pos, status, queue, src, dst, kept) <==>
        AllAsked(m, pos, status, queue[..n], src, dst, kept[..n]) && Asked(m, pos, status, queue, src, dst, kept, n)
  {
    hide ReplayEvents, Flat, DropNoops;
    var n := |queue| - 1;
    forall i: nat | i < n
      ensures Asked(m, pos, status, queue[..n], src, dst, kept[..n], i) <==>
        Asked(m, pos, status, queue, src, dst, kept, i)
    {
      assert queue[..n][..i] == queue[..i] && kept[..n][..i] == kept[..i];
    }
  }

  lemma {:induction false} QueueAsks(
    m: EventMigration, pos: Position, status: map<Fqid, ModelStatus>, queue: seq<Event>, src: Models, dst: Models)
    returns (kept: seq<seq<Event>>)
    requires MigrateQueue(m, pos, status, queue, src, dst).Ok?
    ensures AllAsked(m, pos, status, queue, src, dst, kept)
    ensures MigrateQueue(m, pos, status, queue, src, dst).value.events == Flat(kept)
    decreases |queue|
  {
    hide ReplayEvents, MigrateOne, AllAsked, Asked;
    if queue == [] {
      kept := [];
      NothingAsked(m, pos, status, src, dst);
    } else {
      var n := |queue| - 1;
      var front := QueueAsks(m, pos, status, queue[..n], src, dst);
      MigrateQueueReplays(m, pos, status, queue[..n], src, dst);
      AskedLength(m, pos, status, queue[..n], src, dst, front);
      var before := MigrateQueue(m, pos, status, queue[..n], src, dst).value;
      kept := LastAsked(m, pos, status, queue, src, dst, front, before);
      OneMoreAsked(m, pos, status, queue, src, dst, kept);
    }
  }

  lemma LastAsked(
    m: EventMigration, pos: Position, status: map<Fqid, ModelStatus>, queue: seq<Event>, src: Models, dst: Models,
    front: seq<seq<Event>>, before: Migrated)
    returns (kept: seq<seq<Event>>)
    requires queue != [] && |front| == |queue| - 1 && before.events == Flat(front)
    requires ReplayEvents(src, queue[..|front|], pos) == Ok(before.src)
    requires ReplayEvents(dst, Flat(front), pos) == Ok(before.dst)
    requires MigrateOne(m, Context(pos, status, queue[..|front|]), queue[|front|], before).Ok?
    ensures |kept| == |queue| && kept[..|front|] == front && Asked(m, pos, status, queue, src, dst, kept, |front|)
    ensures MigrateOne(m, Context(pos, status, queue[..|front|]), queue[|front|], before).value.events == Flat(kept)
  {
    hide ReplayEvents, ApplyEvent, DropNoops;
    var n := |front|;
    var answer := m.migrateEvent(Context(pos, status, queue[..n]), queue[n], before.src, before.dst).value;
    kept := front + [DropNoops(if answer.None? then [queue[n]] else answer.value)];
    assert kept[..n] == front && kept[n] == kept[|kept| - 1];
  }

  lemma NothingAsked(m: EventMigration, pos: Position, status: map<Fqid, ModelStatus>, src: Models, dst: Models)
    ensures AllAsked(m, pos, status, [], src, dst, [])
  {}

  lemma AskedLength(
    m: EventMigration, pos: Position, status: map<Fqid, ModelStatus>, queue: seq<Event>, src: Models, dst: Models,
    kept: seq<seq<Event>>)
    requires AllAsked(m, pos, status, queue, src, dst, kept)
    ensures |kept| == |queue|
  {}

  /** And back: where all answers can be given and applied, the queue is migrated to them. */
  lemma {:induction false} AskedQueue(
    m: EventMigration, pos: Position, status: map<Fqid, ModelStatus>, queue: seq<Event>, src: Models, dst: Models,
    kept: seq<seq<Event>>)
    requires AllAsked(m, pos, status, queue, src, dst, kept)
    requires ReplayEvents(src, queue, pos).Ok? && ReplayEvents(dst, Flat(kept), pos).Ok?
    ensures MigrateQueue(m, pos, status, queue, src, dst) == Ok(Migrated(
      Flat(kept), ReplayEvents(src, queue, pos).value, ReplayEvents(dst, Flat(kept), pos).value))
    decreases |queue|
  {
    hide DropNoops, AllAsked, Step;
    AskedLength(m, pos, status, queue, src, dst, kept);
    if queue != [] {
      var n := |queue| - 1;
      OneMoreAsked(m, pos, status, queue, src, dst, kept);
      ReplayConcat(dst, Flat(kept[..n]), kept[n], pos);
      AskedQueue(m, pos, status, queue[..n], src, dst, kept[..n]);
      AppliedIsWellFormed(ReplayEvents(src, queue[..n], pos).value, queue[n], pos);
    }
  }

  lemma AppliedIsWellFormed(models: Models, e: Event, pos: Position)
    requires ApplyEvent(models, e, pos).Ok?
    ensures e.WellFormed()
  {}

  /**
   * The events of a position are translated to what is kept of the answers, in their order, and to what
   * the migration adds in the end, when it sees all old and all new models.
   */
  ghost predicate Translates(
    m: EventMigration, pos: Position, es: seq<Event>, src: Models, dst: Models, kept: seq<seq<Event>>,
    events: seq<Event>)
  {
    var status, queue := StatusAfter(es), CreatesFirst(es);
    var before, written := ReplayEvents(src, queue, pos), ReplayEvents(dst, Flat(kept), pos);
    && AllAsked(m, pos, status, queue, src, dst, kept) && before.Ok? && written.Ok?
    && var extra := m.additionalEvents(Context(pos, status, queue), before.value, written.value);
      && extra.Ok? && events == Flat(kept) + extra.value && ReplayEvents(dst, events, pos).Ok?
  }

  /** A migration of a position succeeds just with such a translation. */
  lemma MigratesAsAsked(m: EventMigration, pos: Position, es: seq<Event>, src: Models, dst: Models)
    ensures MigrateEvents(m, pos, es, src, dst).Ok? ==>
      exists kept :: Translates(m, pos, es, src, dst, kept, MigrateEvents(m, pos, es, src, dst).value.events)
    ensures forall kept, events | Translates(m, pos, es, src, dst, kept, events) ::
      MigrateEvents(m, pos, es, src, dst).Ok? && MigrateEvents(m, pos, es, src, dst).value.events == events
  {
    hide ReplayEvents, AllAsked, MigrateQueue, StatusAfter, CreatesFirst, Flat;
    var status, queue := StatusAfter(es), CreatesFirst(es);
    if MigrateEvents(m, pos, es, src, dst).Ok? {
      var kept := QueueAsks(m, pos, status, queue, src, dst);
      MigrateQueueReplays(m, pos, status, queue, src, dst);
      MigrateEventsReplays(m, pos, es, src, dst);
      assert Translates(m, pos, es, src, dst, kept, MigrateEvents(m, pos, es, src, dst).value.events);
    }
    forall kept, events | Translates(m, pos, es, src, dst, kept, events)
      ensures MigrateEvents(m, pos, es, src, dst).Ok? && MigrateEvents(m, pos, es, src, dst).value.events == events
    {
      AskedQueue(m, pos, status, queue, src, dst, kept);
      var before, written := ReplayEvents(src, queue, pos).value, ReplayEvents(dst, Flat(kept), pos).value;
      ReplayConcat(dst, Flat(kept), m.additionalEvents(Context(pos, status, queue), before, written).value, pos);
    }
  }

  /**
   * Otherwise the error is that of the first event that is malformed, on which the migration raises, that
   * does not apply to the old models, or whose answer does not apply to the new ones.
   */
  ghost predicate FailsAt(
    m: EventMigration, pos: Position, status: map<Fqid, ModelStatus>, queue: seq<Event>, src: Models, dst: Models,
    kept: seq<seq<Event>>, error: Error)
  {
    var i := |kept|;
    && i < |queue| && AllAsked(m, pos, status, queue[..i], src, dst, kept)
    && var before, written := ReplayEvents(src, queue[..i], pos), ReplayEvents(dst, Flat(kept), pos);
    && before.Ok? && written.Ok?
    && if !queue[i].WellFormed() then error == BadEvent
       else
         match m.migrateEvent(Context(pos, status, queue[..i]), queue[i], before.value, written.value)
         case Err(raised) => error == raised
         case Ok(answer) =>
           match ApplyEvent(before.value, queue[i], pos)
           case Err(refused) => error == refused
           case Ok(_) =>
             var translated := DropNoops(if answer.None? then [queue[i]] else answer.value);
             ReplayEvents(written.value, translated, pos) == Err(error)
  }

  lemma {:induction false} QueueFailsAt(
    m: EventMigration, pos: Position, status: map<Fqid, ModelStatus>, queue: seq<Event>, src: Models, dst: Models)
    returns (kept: seq<seq<Event>>)
    requires MigrateQueue(m, pos, status, queue, src, dst).Err?
    ensures FailsAt(m, pos, status, queue, src, dst, kept, MigrateQueue(m, pos, status, queue, src, dst).error)
    decreases |queue|
  {
    hide ReplayEvents, ApplyEvent, DropNoops, AllAsked, Flat;
    var n := |queue| - 1;
    if MigrateQueue(m, pos, status, queue[..n], src, dst).Err? {
      kept := QueueFailsAt(m, pos, status, queue[..n], src, dst);
      assert queue[..n][..|kept|] == queue[..|kept|] && queue[..n][|kept|] == queue[|kept|];
    } else {
      kept := QueueAsks(m, pos, status, queue[..n], src, dst);
      AskedLength(m, pos, status, queue[..n], src, dst, kept);
      MigrateQueueReplays(m, pos, status, queue[..n], src, dst);
    }
  }

  /** Or the migration raises in the end, or its last answer does not apply. */
  ghost predicate FailsInTheEnd(
    m: EventMigration, pos: Position, es: seq<Event>, src: Models, dst: Models, kept: seq<seq<Event>>, error: Error)
  {
    var status, queue := StatusAfter(es), CreatesFirst(es);
    var before, written := ReplayEvents(src, queue, pos), ReplayEvents(dst, Flat(kept), pos);
    && AllAsked(m, pos, status, queue, src, dst, kept) && before.Ok? && written.Ok?
    && match m.additionalEvents(Context(pos, status, queue), before.value, written.value)
       case Err(raised) => error == raised
       case Ok(extra) => ReplayEvents(written.value, extra, pos) == Err(error)
  }

  lemma FailsAsAsked(m: EventMigration, pos: Position, es: seq<Event>, src: Models, dst: Models)
    returns (kept: seq<seq<Event>>)
    requires MigrateEvents(m, pos, es, src, dst).Err?
    ensures var error := MigrateEvents(m, pos, es, src, dst).error;
      || FailsAt(m, pos, StatusAfter(es), CreatesFirst(es), src, dst, kept, error)
      || FailsInTheEnd(m, pos, es, src, dst, kept, error)
  {
    hide ReplayEvents, AllAsked, MigrateQueue, StatusAfter, CreatesFirst, Flat, FailsAt;
    var status, queue := StatusAfter(es), CreatesFirst(es);
    if MigrateQueue(m, pos, status, queue, src, dst).Err? {
      kept := QueueFailsAt(m, pos, status, queue, src, dst);
    } else {
      kept := QueueAsks(m, pos, status, queue, src, dst);
      MigrateQueueReplays(m, pos, status, queue, src, dst);
    }
  }

  // ---------------------------------------------------------------- whole histories

  /** A history at migration index `base`, with the event migrations to the indices 2, 3, ... */
  datatype Source = Source(base: int, ps: seq<Position>, hist: seq<seq<Event>>, migs: seq<EventMigration>) {
    ghost predicate Has(mi: int, k: int) {
      && |ps| == |hist| && 1 <= base <= mi && 0 <= k <= |ps|
      && (base < mi ==> mi <= |migs| + 1)
    }
  }

  /** The events of the `k`-th position at index `mi`, defined from the base events alone. */
  ghost function Evs(s: Source, mi: int, k: nat): Result<seq<Event>>
    requires s.Has(mi, k) && 1 <= k
    decreases k, mi - s.base, 0
  {
    if mi == s.base then Ok(s.hist[k - 1])
    else
      var es :- Evs(s, mi - 1, k);
      var src :- ModelsAt(s, mi - 1, k - 1);
      var dst :- ModelsAt(s, mi, k - 1);
      var done :- MigrateEvents(s.migs[mi - 2], s.ps[k - 1], es, src, dst);
      Ok(done.events)
  }

  /** The replay of the events at index `mi` of the first `k` positions. */
  ghost function ModelsAt(s: Source, mi: int, k: nat): Result<Models>
    requires s.Has(mi, k)
    decreases k, mi - s.base, 1
  {
    if k == 0 then Ok(map[])
    else
      var before :- ModelsAt(s, mi, k - 1);
      var es :- Evs(s, mi, k);
      ReplayEvents(before, es, s.ps[k - 1])
  }

  /** Two sources that agree on the first `k` positions and on the migrations up to `mi`. */
  ghost predicate Agree(s: Source, t: Source, mi: int, k: nat) {
    && s.Has(mi, k) && t.Has(mi, k) && s.base == t.base
    && s.ps[..k] == t.ps[..k] && s.hist[..k] == t.hist[..k]
    && (forall j | 0 <= j < mi - 1 && s.base <= j + 1 :: s.migs[j] == t.migs[j])
  }

  /** Appended positions and further migrations leave the events below them as they were. */
  lemma {:induction false} SourceFrame(s: Source, t: Source, mi: int, k: nat)
    requires Agree(s, t, mi, k)
    ensures ModelsAt(s, mi, k) == ModelsAt(t, mi, k)
    ensures k > 0 ==> Evs(s, mi, k) == Evs(t, mi, k)
    decreases k, mi - s.base
  {
    hide MigrateEvents, ReplayEvents;
    if k > 0 {
      assert s.ps[k - 1] == s.ps[..k][k - 1] == t.ps[k - 1];
      assert s.hist[k - 1] == s.hist[..k][k - 1] == t.hist[k - 1];
      assert s.ps[..k - 1] == s.ps[..k][..k - 1] == t.ps[..k - 1];
      assert s.hist[..k - 1] == s.hist[..k][..k - 1] == t.hist[..k - 1];
      SourceFrame(s, t, mi, k - 1);
      if mi > s.base {
        assert s.migs[mi - 2] == t.migs[mi - 2];
        SourceFrame(s, t, mi - 1, k);
        SourceFrame(s, t, mi - 1, k - 1);
      }
      assert Evs(s, mi, k) == Evs(t, mi, k);
    }
  }

  /** At the base index the models are the replay of the history itself. */
  lemma {:induction false} BaseModels(s: Source, k: nat)
    requires s.Has(s.base, k)
    ensures ModelsAt(s, s.base, k) == ReplayHistory(s.ps, s.hist, k)
    decreases k
  {
    if k > 0 { BaseModels(s, k - 1); }
  }

  /** One more position at one more index: what a step of the migration engine must produce. */
  lemma StepUp(s: Source, mi: int, k: nat)
    requires s.Has(mi, k) && s.Has(mi + 1, k) && 1 <= k
    requires ModelsAt(s, mi, k).Ok? && ModelsAt(s, mi + 1, k - 1).Ok?
    ensures var src, dst := ModelsAt(s, mi, k - 1), ModelsAt(s, mi + 1, k - 1);
      && Evs(s, mi, k).Ok? && src.Ok?
      && var done := MigrateEvents(s.migs[mi - 1], s.ps[k - 1], Evs(s, mi, k).value, src.value, dst.value);
      && (done.Ok? ==>
            && Evs(s, mi + 1, k) == Ok(done.value.events)
            && ModelsAt(s, mi, k) == Ok(done.value.src)
            && ModelsAt(s, mi + 1, k) == Ok(done.value.dst))
      && (done.Err? ==> Evs(s, mi + 1, k) == Err(done.error) && ModelsAt(s, mi + 1, k) == Err(done.error))
  {
    hide MigrateEvents, ReplayEvents, CreatesFirst;
    var es, src, dst := Evs(s, mi, k).value, ModelsAt(s, mi, k - 1).value, ModelsAt(s, mi + 1, k - 1).value;
    var done := MigrateEvents(s.migs[mi - 1], s.ps[k - 1], es, src, dst);
    if done.Ok? {
      MigrateEventsReplays(s.migs[mi - 1], s.ps[k - 1], es, src, dst);
      CreatesFirstKeepsReplay(src, es, s.ps[k - 1]);
    }
  }
  /** So it is at every index of a chain: the migration to it translates the events of the index below. */
  lemma ChainAsks(s: Source, mi: int, k: nat) returns (kept: seq<seq<Event>>)
    requires s.Has(mi, k) && s.Has(mi + 1, k) && 1 <= k && Evs(s, mi + 1, k).Ok?
    ensures Evs(s, mi, k).Ok? && ModelsAt(s, mi, k - 1).Ok? && ModelsAt(s, mi + 1, k - 1).Ok?
    ensures Translates(s.migs[mi - 1], s.ps[k - 1], Evs(s, mi, k).value,
      ModelsAt(s, mi, k - 1).value, ModelsAt(s, mi + 1, k - 1).value, kept, Evs(s, mi + 1, k).value)
  {
    hide MigrateEvents, ReplayEvents, Translates;
    var m, pos, es := s.migs[mi - 1], s.ps[k - 1], Evs(s, mi, k).value;
    var src, dst := ModelsAt(s, mi, k - 1).value, ModelsAt(s, mi + 1, k - 1).value;
    MigratesAsAsked(m, pos, es, src, dst);
    kept :| Translates(m, pos, es, src, dst, kept, MigrateEvents(m, pos, es, src, dst).value.events);
  }
}
