/** The ranges of ids handed out, and what finalising makes of them. */
module Reservations {
  import opened Types
  import opened Backend
  import opened Finalizing

  datatype Reservation = Reservation(collection: Collection, first: int, amount: int)

  /** The sequence of the collection is above the range, so that it never hands out one of its ids again. */
  predicate Below(x: Reservation, sequences: IdSequences) {
    x.collection in sequences && x.first + x.amount <= sequences[x.collection]
  }

  ghost predicate Before(x: Reservation, y: Reservation) {
    x.collection == y.collection ==> x.first + x.amount <= y.first
  }

  ghost predicate InOrder(rs: seq<Reservation>) { forall i, j | 0 <= i < j < |rs| :: Before(rs[i], rs[j]) }

  /** The ranges of a collection are disjoint and increasing, and below its sequence. */
  ghost predicate ReservationsOk(rs: seq<Reservation>, sequences: IdSequences) {
    InOrder(rs) && forall x | x in rs :: 1 <= x.first && 1 <= x.amount && Below(x, sequences)
  }

  lemma OneMoreInOrder(rs: seq<Reservation>, y: Reservation)
    requires InOrder(rs) && forall x | x in rs :: Before(x, y)
    ensures InOrder(rs + [y])
  {
    hide Before;
    forall i, j | 0 <= i < j < |rs + [y]|
      ensures Before((rs + [y])[i], (rs + [y])[j])
    {
      assert (rs + [y])[i] == rs[i] && rs[i] in rs;
    }
  }

  lemma GrownSequences(rs: seq<Reservation>, before: IdSequences, after: IdSequences)
    requires ReservationsOk(rs, before) && SequencesGrow(before, after)
    ensures ReservationsOk(rs, after)
  {}

  /** The next range starts at the sequence, and raises it by its size. */
  lemma OneRangeMore(rs: seq<Reservation>, x: Reservation, before: IdSequences, after: IdSequences)
    requires ReservationsOk(rs, before) && 1 <= x.first && 1 <= x.amount
    requires x.collection in before ==> x.first == before[x.collection]
    requires after == before[x.collection := x.first + x.amount]
    ensures ReservationsOk(rs + [x], after)
  {
    assert forall y | y in rs :: Below(y, before);
    OneMoreInOrder(rs, x);
  }

  /** The reservations whose ids will not be handed out again. */
  ghost function Kept(rs: seq<Reservation>, sequences: IdSequences): (kept: seq<Reservation>)
    ensures forall x :: x in kept <==> x in rs && Below(x, sequences)
  {
    if rs == [] then []
    else
      var last := rs[|rs| - 1];
      Kept(rs[..|rs| - 1], sequences) + if Below(last, sequences) then [last] else []
  }

  lemma {:induction false} KeptInOrder(rs: seq<Reservation>, sequences: IdSequences)
    requires InOrder(rs)
    ensures InOrder(Kept(rs, sequences))
    decreases |rs|
  {
    hide Below, Before;
    if rs != [] {
      var front, last := rs[..|rs| - 1], rs[|rs| - 1];
      KeptInOrder(front, sequences);
      forall x | x in Kept(front, sequences)
        ensures Before(x, last)
      {
        var i :| 0 <= i < |front| && front[i] == x;
        assert rs[i] == x;
      }
      OneMoreInOrder(Kept(front, sequences), last);
    }
  }

  lemma KeptOk(rs: seq<Reservation>, before: IdSequences, after: IdSequences)
    requires ReservationsOk(rs, before)
    ensures ReservationsOk(Kept(rs, after), after)
  {
    hide InOrder, Below;
    KeptInOrder(rs, after);
  }

  lemma {:induction false} AllKept(rs: seq<Reservation>, sequences: IdSequences)
    requires forall x | x in rs :: Below(x, sequences)
    ensures Kept(rs, sequences) == rs
    decreases |rs|
  {
    hide Below;
    if rs != [] {
      var front, last := rs[..|rs| - 1], rs[|rs| - 1];
      assert rs == front + [last];
      AllKept(front, sequences);
      assert Kept(front, sequences) == front && Below(last, sequences);
    }
  }

  /** Some model of the collection has the last id of the range, or a higher one. */
  ghost predicate Covered(x: Reservation, models: Models) {
    exists f: Fqid :: f in models && f.collection == x.collection && x.first + x.amount <= f.id + 1
  }

  /**
   * Finalising rebuilds the sequences from the models, and forgets the reserved ids that are not in use
   * yet: the reservations stay valid exactly if each of them is covered by a model.
   */
  lemma ReservationsSurvive(rs: seq<Reservation>, before: IdSequences, models: Models, after: IdSequences)
    requires ReservationsOk(rs, before) && Rebuilt(models, after)
    ensures ReservationsOk(rs, after) <==> forall x | x in rs :: Covered(x, models)
    ensures forall x | x in rs :: x in Kept(rs, after) <==> Covered(x, models)
  {
    forall x
      ensures Below(x, after) <==> Covered(x, models)
    {
      if Below(x, after) {
        var f :| f in models && f.collection == x.collection && after[x.collection] == f.id + 1;
        assert Covered(x, models);
      }
    }
  }
}
