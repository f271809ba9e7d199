/** Migrations that translate every event on its own: when does the migrated replay follow the original? */
module Simulations {
  import opened Types
  import opened Replay
  import opened Tables
  import opened EventMigrations

  /**
   * A translation, the relation it is to keep between the rows up to a position, and the events it is
   * to keep it for.
   */
  datatype Simulation = Simulation(
    translate: Event -> Event,
    related: (Position, Fqid, ModelRow, ModelRow) -> bool,
    allowed: Event -> bool)

  ghost predicate ModelsRelated(sim: Simulation, now: Position, a: Models, b: Models) {
    a.Keys == b.Keys && forall f | f in a :: sim.related(now, f, a[f], b[f])
  }

  ghost predicate RowsRelated(sim: Simulation, now: Position, f: Fqid, a: Option<ModelRow>, b: Option<ModelRow>) {
    if a.None? then b.None? else b.Some? && sim.related(now, f, a.value, b.value)
  }

  /** An event and its translation, which is left out when it is empty, keep two rows related. */
  ghost predicate StepRelated(sim: Simulation, e: Event, a: Option<ModelRow>, b: Option<ModelRow>, pos: Position)
    requires Step(a, e, pos).Ok?
  {
    var t := sim.translate(e);
    && t.fqid == e.fqid
    && (IsNoop(t) ==> b.Some? && sim.related(pos, e.fqid, Step(a, e, pos).value, b.value))
    && (!IsNoop(t) ==> Step(b, t, pos).Ok? && sim.related(pos, e.fqid, Step(a, e, pos).value, Step(b, t, pos).value))
  }

  ghost predicate Sound(sim: Simulation) {
    && (forall e, a, b, pos | sim.allowed(e) && Step(a, e, pos).Ok? && RowsRelated(sim, pos, e.fqid, a, b) ::
          StepRelated(sim, e, a, b, pos))
    && (forall now, later, f, a, b | now <= later && sim.related(now, f, a, b) :: sim.related(later, f, a, b))
  }

  /** The code of the migration answers with the translation, or with `None` where that is the event. */
  ghost predicate Implements(m: EventMigration, sim: Simulation) {
    && (forall ctx, e: Event, src, dst | e.WellFormed() ::
          || m.migrateEvent(ctx, e, src, dst) == Ok(Some([sim.translate(e)]))
          || (m.migrateEvent(ctx, e, src, dst) == Ok(None) && sim.translate(e) == e))
    && (forall ctx, src, dst :: m.additionalEvents(ctx, src, dst) == Ok([]))
  }

  function Translated(sim: Simulation, es: seq<Event>): seq<Event> {
    if es == [] then []
    else Translated(sim, es[..|es| - 1]) + DropNoops([sim.translate(es[|es| - 1])])
  }

  lemma ApplyRelated(sim: Simulation, e: Event, a: Models, b: Models, pos: Position)
    requires Sound(sim) && sim.allowed(e) && ModelsRelated(sim, pos, a, b) && ApplyEvent(a, e, pos).Ok?
    ensures var r := ReplayEvents(b, DropNoops([sim.translate(e)]), pos);
      r.Ok? && ModelsRelated(sim, pos, ApplyEvent(a, e, pos).value, r.value)
  {
    hide Step, IsNoop;
    var t := sim.translate(e);
    assert RowsRelated(sim, pos, e.fqid, Lookup(a, e.fqid), Lookup(b, e.fqid));
    assert StepRelated(sim, e, Lookup(a, e.fqid), Lookup(b, e.fqid), pos);
    if IsNoop(t) {
      assert DropNoops([t]) == [];
      assert b[e.fqid := b[e.fqid]] == b;
    } else {
      assert DropNoops([t]) == [t];
      ReplayOne(b, t, pos);
    }
  }

  lemma {:induction false} QueueSimulates(
    sim: Simulation, m: EventMigration, pos: Position, status: map<Fqid, ModelStatus>, queue: seq<Event>,
    src: Models, dst: Models)
    requires Sound(sim) && Implements(m, sim) && ModelsRelated(sim, pos, src, dst)
    requires ReplayEvents(src, queue, pos).Ok? && forall e | e in queue :: sim.allowed(e)
    ensures var done := MigrateQueue(m, pos, status, queue, src, dst);
      && done.Ok? && done.value.events == Translated(sim, queue)
      && Ok(done.value.src) == ReplayEvents(src, queue, pos) && ModelsRelated(sim, pos, done.value.src, done.value.dst)
    decreases |queue|
  {
    hide ApplyEvent, Sound, ModelsRelated, IsNoop;
    if queue != [] {
      var seen, e := queue[..|queue| - 1], queue[|queue| - 1];
      QueueSimulates(sim, m, pos, status, seen, src, dst);
      var done := MigrateQueue(m, pos, status, seen, src, dst).value;
      AppliedIsWellFormed(done.src, e, pos);
      ApplyRelated(sim, e, done.src, done.dst, pos);
    }
  }

  lemma {:induction false} SameEvents(es: seq<Event>)
    ensures forall e | e in Creates(es) || e in Others(es) :: e in es
    decreases |es|
  {
    if es != [] {
      var front := es[..|es| - 1];
      SameEvents(front);
      assert forall e | e in front :: e in es;
    }
  }

  lemma PositionSimulates(
    sim: Simulation, m: EventMigration, pos: Position, es: seq<Event>, src: Models, dst: Models)
    requires Sound(sim) && Implements(m, sim) && ModelsRelated(sim, pos, src, dst)
    requires ReplayEvents(src, es, pos).Ok? && forall e | e in es :: sim.allowed(e)
    ensures var done := MigrateEvents(m, pos, es, src, dst);
      && done.Ok? && done.value.events == Translated(sim, CreatesFirst(es))
      && ModelsRelated(sim, pos, ReplayEvents(src, es, pos).value, done.value.dst)
  {
    hide Sound, ModelsRelated, Creates, Others, StatusAfter;
    CreatesFirstKeepsReplay(src, es, pos);
    SameEvents(es);
    QueueSimulates(sim, m, pos, StatusAfter(es), CreatesFirst(es), src, dst);
  }

  /** All events of the first `k` positions at index `mi` are allowed. */
  ghost predicate AllAllowed(sim: Simulation, s: Source, mi: int, k: nat)
    requires s.Has(mi, k)
  {
    forall j: nat | 1 <= j <= k && s.Has(mi, j) && Evs(s, mi, j).Ok? ::
      forall e | e in Evs(s, mi, j).value :: sim.allowed(e)
  }

  function Now(s: Source, k: nat): Position
    requires k <= |s.ps|
  {
    if k == 0 then 0 else s.ps[k - 1]
  }

  lemma RelatedLater(sim: Simulation, now: Position, later: Position, a: Models, b: Models)
    requires Sound(sim) && now <= later && ModelsRelated(sim, now, a, b)
    ensures ModelsRelated(sim, later, a, b)
  {}

  /** The models of every position at the next index are related to those before the migration. */
  lemma {:induction false} MigrationSimulates(sim: Simulation, s: Source, mi: int, k: nat)
    requires s.Has(mi, k) && s.Has(mi + 1, k)
    requires Sound(sim) && Implements(s.migs[mi - 1], sim)
    requires Ascending(s.ps) && ModelsAt(s, mi, k).Ok? && AllAllowed(sim, s, mi, k)
    ensures ModelsAt(s, mi + 1, k).Ok?
    ensures ModelsRelated(sim, Now(s, k), ModelsAt(s, mi, k).value, ModelsAt(s, mi + 1, k).value)
    ensures k > 0 ==> Evs(s, mi + 1, k) == Ok(Translated(sim, CreatesFirst(Evs(s, mi, k).value)))
    decreases k
  {
    hide Sound, Implements, MigrateEvents, CreatesFirst, ReplayEvents;
    if k > 0 {
      MigrationSimulates(sim, s, mi, k - 1);
      var src, dst, es := ModelsAt(s, mi, k - 1).value, ModelsAt(s, mi + 1, k - 1).value, Evs(s, mi, k).value;
      RelatedLater(sim, Now(s, k - 1), s.ps[k - 1], src, dst);
      PositionSimulates(sim, s.migs[mi - 1], s.ps[k - 1], es, src, dst);
      StepUp(s, mi, k);
    }
  }
}
