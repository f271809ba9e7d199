/** `BaseEventMigration.migrate`: one migration on the events of one position, through the two accessors. */
module EventMigrationRun {
  import opened Types
  import opened Replay
  import opened EventMigrations
  import opened Keyframes

  method OrderEvents(es: seq<Event>) returns (ordered: seq<Event>)
    ensures ordered == CreatesFirst(es)
  {
    var queue: seq<Event> := [];
    ordered := [];
    for i := 0 to |es|
      invariant ordered == Creates(es[..i]) && queue == Others(es[..i])
    {
      assert es[..i + 1][..i] == es[..i];
      if es[i].Create? {
        ordered := ordered + [es[i]];
      } else {
        queue := queue + [es[i]];
      }
    }
    assert es[..|es|] == es;
    ordered := ordered + queue;
  }

  method SetModelStatus(es: seq<Event>) returns (status: map<Fqid, ModelStatus>)
    ensures status == StatusAfter(es)
    ensures forall f :: HasStatus(status, f, StatusDelete) <==> Delete(f) in es
    ensures forall f :: HasStatus(status, f, StatusCreate) <==> HasCreate(es, f) && Delete(f) !in es
  {
    status := map[];
    for i := 0 to |es|
      invariant status == StatusAfter(es[..i])
    {
      assert es[..i + 1][..i] == es[..i];
      var e := es[i];
      if (e.Create? || e.Delete?) && (e.fqid !in status || status[e.fqid] != StatusDelete) {
        status := status[e.fqid := if e.Create? then StatusCreate else StatusDelete];
      }
    }
    assert es[..|es|] == es;
    forall f
      ensures HasStatus(status, f, StatusDelete) <==> Delete(f) in es
      ensures HasStatus(status, f, StatusCreate) <==> HasCreate(es, f) && Delete(f) !in es
    {
      StatusMeans(es, f);
    }
  }

  /** The keyframe table when the contents of `k` are the only change. */
  ghost function Written(frames: map<(Position, int), Models>, k: KeyframeModifier): map<(Position, int), Models>
    requires k.Valid()
    reads k, k.db`keyframes
  {
    if k.kind.Persistent? then frames[(k.position, k.migrationIndex) := k.Contents()] else frames
  }

  ghost predicate Separate(src: KeyframeModifier, dst: KeyframeModifier)
    reads src, dst, src.db`keyframes, dst.db`keyframes
  {
    && src != dst && src.db == dst.db && src.Valid() && dst.Valid()
    && src.nextPosition == dst.nextPosition
    && (src.kind.Initial? <==> dst.kind.Initial?) && !src.kind.Overlay?
    && (src.position, src.migrationIndex) != (dst.position, dst.migrationIndex)
  }

  method ApplyAll(k: KeyframeModifier, es: seq<Event>, ghost frames: map<(Position, int), Models>)
    returns (r: Result<()>)
    requires k.Valid() && k.db.keyframes == Written(frames, k)
    modifies k`modelStore, k.db`keyframes
    ensures k.Valid() && k.db.keyframes == Written(frames, k)
    ensures match ReplayEvents(old(k.Contents()), es, k.nextPosition)
      case Ok(models) => r.Ok? && k.Contents() == models
      case Err(error) => r == Err(error)
  {
    hide Replay.ApplyEvent;
    ghost var start := k.Contents();
    for i := 0 to |es|
      invariant k.Valid() && k.db.keyframes == Written(frames, k)
      invariant ReplayEvents(start, es[..i], k.nextPosition) == Ok(k.Contents())
    {
      assert es[..i + 1][..i] == es[..i];
      var applied := k.ApplyEvent(es[i]);
      if applied.Err? {
        assert es == es[..i + 1] + es[i + 1..];
        ReplayConcat(start, es[..i + 1], es[i + 1..], k.nextPosition);
        return applied;
      }
    }
    assert es[..|es|] == es;
    r := Ok(());
  }

  lemma {:induction false} QueueFailsEarly(
    m: EventMigration, pos: Position, status: map<Fqid, ModelStatus>, queue: seq<Event>, i: nat,
    src: Models, dst: Models)
    requires i <= |queue| && MigrateQueue(m, pos, status, queue[..i], src, dst).Err?
    ensures MigrateQueue(m, pos, status, queue, src, dst) == MigrateQueue(m, pos, status, queue[..i], src, dst)
    decreases |queue|
  {
    if i == |queue| {
      assert queue[..i] == queue;
    } else {
      assert queue[..|queue| - 1][..i] == queue[..i];
      QueueFailsEarly(m, pos, status, queue[..|queue| - 1], i, src, dst);
    }
  }

  /** One event of the queue: translate it, then bring both keyframes up to date. */
  method MigrateEvent(
    m: EventMigration, ctx: Context, e: Event, src: KeyframeModifier, dst: KeyframeModifier,
    ghost frames: map<(Position, int), Models>, ghost newEvents: seq<Event>)
    returns (r: Result<seq<Event>>)
    requires Separate(src, dst) && src.db.keyframes == Written(Written(frames, src), dst)
    requires ctx.position == src.nextPosition
    modifies src`modelStore, dst`modelStore, src.db`keyframes
    ensures Separate(src, dst) && src.db.keyframes == Written(Written(frames, src), dst)
    ensures match MigrateOne(m, ctx, e, Migrated(newEvents, old(src.Contents()), old(dst.Contents())))
      case Ok(done) => r.Ok? && done == Migrated(newEvents + r.value, src.Contents(), dst.Contents())
      case Err(error) => r == Err(error)
  {
    hide Replay.ApplyEvent, ReplayEvents, DropNoops, Written, Separate;
    if !e.WellFormed() {
      return Err(BadEvent);
    }
    Apart(src, dst);
    var srcContents := src.Snapshot();
    var dstContents := dst.Snapshot();
    var answer := m.migrateEvent(ctx, e, srcContents, dstContents);
    if answer.Err? {
      return Err(answer.error);
    }
    var translated := DropNoops(if answer.value.None? then [e] else answer.value.value);
    var applied := ApplyBoth(e, translated, src, dst, frames);
    r := if applied.Ok? then Ok(translated) else Err(applied.error);
  }

  lemma Apart(src: KeyframeModifier, dst: KeyframeModifier)
    requires Separate(src, dst)
    ensures src.Valid() && dst.Valid()
  {}

  /** The event on the old keyframe, its translation on the new one. */
  method ApplyBoth(
    e: Event, translated: seq<Event>, src: KeyframeModifier, dst: KeyframeModifier,
    ghost frames: map<(Position, int), Models>)
    returns (r: Result<()>)
    requires Separate(src, dst) && src.db.keyframes == Written(Written(frames, src), dst)
    modifies src`modelStore, dst`modelStore, src.db`keyframes
    ensures Separate(src, dst) && src.db.keyframes == Written(Written(frames, src), dst)
    ensures match Replay.ApplyEvent(old(src.Contents()), e, src.nextPosition)
      case Err(error) => r == Err(error)
      case Ok(models) =>
        match ReplayEvents(old(dst.Contents()), translated, src.nextPosition)
        case Err(error) => r == Err(error)
        case Ok(others) => r.Ok? && src.Contents() == models && dst.Contents() == others
  {
    hide Replay.ApplyEvent, ReplayEvents;
    ReplayOne(src.Contents(), e, src.nextPosition);
    r := ApplyAll(src, [e], Written(frames, dst));
    if r.Ok? {
      r := ApplyAll(dst, translated, Written(frames, src));
    }
  }

  method RunMigration(
    m: EventMigration, events: seq<Event>, src: KeyframeModifier, dst: KeyframeModifier,
    ghost frames: map<(Position, int), Models>)
    returns (r: Result<seq<Event>>)
    requires Separate(src, dst) && src.db.keyframes == Written(Written(frames, src), dst)
    modifies src`modelStore, dst`modelStore, src.db`keyframes
    ensures Separate(src, dst) && src.db.keyframes == Written(Written(frames, src), dst)
    ensures match MigrateEvents(m, src.nextPosition, events, old(src.Contents()), old(dst.Contents()))
      case Ok(done) => r == Ok(done.events) && src.Contents() == done.src && dst.Contents() == done.dst
      case Err(error) => r == Err(error)
    ensures r.Ok? ==> exists kept ::
      Translates(m, src.nextPosition, events, old(src.Contents()), old(dst.Contents()), kept, r.value)
  {
    hide MigrateOne, Replay.ApplyEvent, ReplayEvents, CreatesFirst, StatusAfter, Translates;
    MigratesAsAsked(m, src.nextPosition, events, src.Contents(), dst.Contents());
    var pos := src.nextPosition;
    ghost var src0, dst0 := src.Contents(), dst.Contents();
    var status := SetModelStatus(events);
    var queue := OrderEvents(events);
    var newEvents: seq<Event> := [];
    for i := 0 to |queue|
      invariant Separate(src, dst) && src.db.keyframes == Written(Written(frames, src), dst)
      invariant MigrateQueue(m, pos, status, queue[..i], src0, dst0)
        == Ok(Migrated(newEvents, src.Contents(), dst.Contents()))
    {
      assert queue[..i + 1][..i] == queue[..i];
      var translated := MigrateEvent(m, Context(pos, status, queue[..i]), queue[i], src, dst, frames, newEvents);
      if translated.Err? {
        QueueFailsEarly(m, pos, status, queue, i + 1, src0, dst0);
        return translated;
      }
      newEvents := newEvents + translated.value;
    }
    assert queue[..|queue|] == queue;
    var srcContents := src.Snapshot();
    var dstContents := dst.Snapshot();
    var extra := m.additionalEvents(Context(pos, status, queue), srcContents, dstContents);
    if extra.Err? {
      return Err(extra.error);
    }
    var applied := ApplyAll(dst, extra.value, Written(frames, src));
    if applied.Err? {
      return Err(applied.error);
    }
    r := Ok(newEvents + extra.value);
  }
}
