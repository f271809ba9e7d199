/** What the events of one model say about it: its data and whether it is deleted, at any position. */
module History {
  import opened Types
  import opened ListFields
  import opened Replay

  datatype PositionedEvent = PositionedEvent(position: Position, event: Event)

  /** The events of a model in one position. */
  function Own(es: seq<Event>, pos: Position, f: Fqid): (r: seq<PositionedEvent>)
    ensures forall x | x in r :: x.event.fqid == f && x.position == pos
  {
    if es == [] then []
    else Own(es[..|es| - 1], pos, f) + if es[|es| - 1].fqid == f then [PositionedEvent(pos, es[|es| - 1])] else []
  }

  /** The events of a model in the first `k` positions, in order. */
  function OwnEvents(ps: seq<Position>, hist: seq<seq<Event>>, k: nat, f: Fqid): seq<PositionedEvent>
    requires k <= |ps| && k <= |hist|
  {
    if k == 0 then [] else OwnEvents(ps, hist, k - 1, f) + Own(hist[k - 1], ps[k - 1], f)
  }

  /** The loop of `build_model_from_events`, without the position it sets at the end. */
  function Built(es: seq<PositionedEvent>): Result<Model> {
    if es == [] then Err(BadCoding)
    else if |es| == 1 then
      if es[0].event.Create? then TimelessStep(map[], es[0].event) else Err(BadCoding)
    else
      var model :- Built(es[..|es| - 1]);
      if es[|es| - 1].event.Create? then Err(BadCoding) else TimelessStep(model, es[|es| - 1].event)
  }

  /** The row of a model is what its events build. */
  ghost predicate BuiltIs(row: Option<ModelRow>, es: seq<PositionedEvent>) {
    && (row.None? <==> es == [])
    && (row.Some? ==>
          && Built(es) == Ok(Timeless(row.value))
          && META_POSITION in row.value.data && row.value.data[META_POSITION] == Int(es[|es| - 1].position))
  }

  lemma BuiltStep(row: Option<ModelRow>, es: seq<PositionedEvent>, e: Event, pos: Position)
    requires BuiltIs(row, es) && Step(row, e, pos).Ok?
    ensures BuiltIs(Some(Step(row, e, pos).value), es + [PositionedEvent(pos, e)])
  {
    StepMeans(row, e, pos);
    var all := es + [PositionedEvent(pos, e)];
    assert all[..|all| - 1] == es;
  }

  lemma StepMeans(row: Option<ModelRow>, e: Event, pos: Position)
    requires Step(row, e, pos).Ok?
    ensures e.Create? <==> row.None?
    ensures TimelessStep(if row.None? then map[] else Timeless(row.value), e) == Ok(Timeless(Step(row, e, pos).value))
    ensures META_POSITION in Step(row, e, pos).value.data && Step(row, e, pos).value.data[META_POSITION] == Int(pos)
  {
    hide TimelessStep, Applied;
    StepIsTimeless(row, e, pos);
  }

  lemma {:induction false} BuiltWithin(
    models: Models, es: seq<Event>, pos: Position, f: Fqid, before: seq<PositionedEvent>)
    requires BuiltIs(Lookup(models, f), before) && ReplayEvents(models, es, pos).Ok?
    ensures BuiltIs(Lookup(ReplayEvents(models, es, pos).value, f), before + Own(es, pos, f))
    decreases |es|
  {
    hide BuiltIs, Step;
    if es == [] {
      assert before + [] == before;
    } else {
      var front, e := es[..|es| - 1], es[|es| - 1];
      BuiltWithin(models, front, pos, f, before);
      var after := ReplayEvents(models, front, pos).value;
      if e.fqid == f {
        BuiltStep(Lookup(after, f), before + Own(front, pos, f), e, pos);
        assert before + Own(es, pos, f) == before + Own(front, pos, f) + [PositionedEvent(pos, e)];
      } else {
        assert Own(es, pos, f) == Own(front, pos, f);
      }
    }
  }

  /** Building a model from its events gives its replayed row, at every position. */
  lemma {:induction false} BuiltIsReplayed(ps: seq<Position>, hist: seq<seq<Event>>, k: nat, f: Fqid)
    requires k <= |ps| && k <= |hist| && ReplayHistory(ps, hist, k).Ok?
    ensures BuiltIs(Lookup(ReplayHistory(ps, hist, k).value, f), OwnEvents(ps, hist, k, f))
    decreases k
  {
    hide BuiltIs, ReplayEvents, Own;
    if k == 0 {
      NothingBuilt(f);
    } else {
      BuiltIsReplayed(ps, hist, k - 1, f);
      BuiltWithin(ReplayHistory(ps, hist, k - 1).value, hist[k - 1], ps[k - 1], f, OwnEvents(ps, hist, k - 1, f));
    }
  }

  lemma NothingBuilt(f: Fqid)
    ensures BuiltIs(Lookup(map[], f), [])
  {}

  // ---------------------------------------------------------------- deleted or not

  /** Creates, deletes and restores are what the query for the status looks for. */
  predicate IsStatus(e: Event) { e.Create? || e.Delete? || e.Restore? }

  predicate HasStatus(es: seq<Event>, f: Fqid) { exists e | e in es :: IsStatus(e) && e.fqid == f }

  /** The last position with such an event. */
  function LastStatus(hist: seq<seq<Event>>, k: nat, f: Fqid): (r: Option<nat>)
    requires k <= |hist|
    ensures r.Some? ==> r.value < k && HasStatus(hist[r.value], f)
  {
    if k == 0 then None else if HasStatus(hist[k - 1], f) then Some(k - 1) else LastStatus(hist, k - 1, f)
  }

  /** Whether the last event of the model in a position is a delete: any event counts. */
  function EndsDeleted(es: seq<Event>, f: Fqid): Option<bool> {
    if es == [] then None
    else if es[|es| - 1].fqid == f then Some(es[|es| - 1].Delete?)
    else EndsDeleted(es[..|es| - 1], f)
  }

  lemma StepStatus(row: Option<ModelRow>, e: Event, pos: Position)
    requires Step(row, e, pos).Ok?
    ensures Step(row, e, pos).value.deleted <==> e.Delete?
    ensures !IsStatus(e) ==> row.Some? && !row.value.deleted && !e.Delete?
  {
    hide Applied;
  }

  function Flag(models: Models, f: Fqid): Option<bool> { if f in models then Some(models[f].deleted) else None }

  /** Within a position the last event of a model decides; without a status event nothing changes. */
  lemma {:induction false} StatusWithin(models: Models, es: seq<Event>, pos: Position, f: Fqid)
    requires ReplayEvents(models, es, pos).Ok?
    ensures var after := ReplayEvents(models, es, pos).value;
      && Flag(after, f) == (if EndsDeleted(es, f).Some? then EndsDeleted(es, f) else Flag(models, f))
      && (!HasStatus(es, f) ==> Flag(after, f) == Flag(models, f))
      && (HasStatus(es, f) ==> EndsDeleted(es, f).Some?)
    decreases |es|
  {
    hide Step, IsStatus;
    if es != [] {
      var front, e := es[..|es| - 1], es[|es| - 1];
      StatusWithin(models, front, pos, f);
      StepStatus(Lookup(ReplayEvents(models, front, pos).value, e.fqid), e, pos);
      assert forall x | x in es :: x in front || x == e;
      assert forall x | x in front :: x in es;
      assert e in es;
    }
  }

  /** The status read off the events is the replayed flag, on every history that replays. */
  lemma {:induction false} StatusIsReplayed(ps: seq<Position>, hist: seq<seq<Event>>, k: nat, f: Fqid)
    requires k <= |ps| && k <= |hist| && ReplayHistory(ps, hist, k).Ok?
    ensures var flag := Flag(ReplayHistory(ps, hist, k).value, f);
      flag == if LastStatus(hist, k, f).None? then None else EndsDeleted(hist[LastStatus(hist, k, f).value], f)
    decreases k
  {
    hide ReplayEvents, HasStatus, EndsDeleted;
    if k > 0 {
      StatusIsReplayed(ps, hist, k - 1, f);
      StatusWithin(ReplayHistory(ps, hist, k - 1).value, hist[k - 1], ps[k - 1], f);
    }
  }
}
