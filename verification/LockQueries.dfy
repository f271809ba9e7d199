/** The query for locked collectionfields: conditions joined by OR, some of them with a filter spliced in. */
module LockQueries {
  import opened Types
  import opened Filters
  import opened WriteRequests

  /** One of the conditions joined by OR. */
  datatype LockCondition = PlainCondition(cf: CollectionField, position: Position)
    | FilteredCondition(cf: CollectionField, lock: FilteredLock)

  /** A row of `collectionfields`, joined with an event and its model where that is needed. */
  datatype JoinedRow = JoinedRow(cf: CollectionField, position: Position, joined: Option<(Position, ModelRow)>)

  /** How the database evaluates the conditions of filters on a model. */
  type ModelSemantics = (Condition, seq<Argument>, ModelRow) -> Truth

  function Truly(b: bool): Truth { if b then True else False }

  /** A condition on a row; an argument of the wrong kind, or a table that is not joined, is no answer. */
  function RowHolds(holds: ModelSemantics, row: JoinedRow, c: Condition, args: seq<Argument>): Truth {
    match c
    case FieldIs => if |args| == 1 && args[0].Key? then Truly(row.cf == args[0].cf) else Unknown
    case FieldAfter => if |args| == 1 && args[0].After? then Truly(row.position > args[0].position) else Unknown
    case EventAfter =>
      if |args| == 1 && args[0].After? && row.joined.Some? then Truly(row.joined.value.0 > args[0].position)
      else Unknown
    case _ => if row.joined.Some? then holds(c, args, row.joined.value.1) else Unknown
  }

  function RowSemantics(holds: ModelSemantics, row: JoinedRow): Semantics {
    (c, args) => RowHolds(holds, row, c, args)
  }

  predicate HasFilter(c: LockCondition) { c.FilteredCondition? && c.lock.filter.Some? }

  predicate ConditionOk(c: LockCondition) { HasFilter(c) ==> Comparable(c.lock.filter.value) }

  predicate ConditionReadable(c: LockCondition) {
    HasFilter(c) ==> Comparable(c.lock.filter.value) && NonEmptyLists(c.lock.filter.value)
  }

  /** The text for one condition without its parentheses, with its arguments. */
  function ConditionSql(c: LockCondition): Sql
    requires ConditionOk(c)
  {
    if c.PlainCondition? then Sql([Cond(FieldIs), AND, Cond(FieldAfter)], [Key(c.cf), After(c.position)])
    else
      var sql := Sql([Cond(EventAfter), AND, Cond(FieldIs)], [After(c.lock.position), Key(c.cf)]);
      if c.lock.filter.None? then sql
      else
        var f := Compiled(c.lock.filter.value);
        Sql(sql.tokens + [AND, LParen] + f.tokens + [RParen], sql.args + f.args)
  }

  /** The conditions in parentheses, joined by OR. */
  function LocksSql(cs: seq<LockCondition>): Sql
    requires forall c | c in cs :: ConditionOk(c)
    decreases |cs|
  {
    if |cs| == 0 then Sql([], [])
    else
      var front, last := LocksSql(Init(cs)), ConditionSql(cs[|cs| - 1]);
      Sql(front.tokens + (if |cs| == 1 then [] else [OR]) + [LParen] + last.tokens + [RParen], front.args + last.args)
  }

  function Init<T>(cs: seq<T>): (front: seq<T>)
    requires |cs| > 0
    ensures |front| == |cs| - 1 && forall c | c in front :: c in cs
  {
    cs[..|cs| - 1]
  }

  function OnModel(holds: ModelSemantics, model: ModelRow): Semantics { (c, args) => holds(c, args, model) }

  /** The filter of a lock is true of a model. */
  predicate Matches(holds: ModelSemantics, filter: Option<Filter>, model: ModelRow)
    requires filter.Some? ==> Comparable(filter.value)
  {
    filter.Some? ==> Meaning(filter.value, OnModel(holds, model)) == True
  }

  /** What a condition demands of a row. */
  predicate Demands(c: LockCondition, holds: ModelSemantics, row: JoinedRow)
    requires ConditionOk(c)
  {
    && row.cf == c.cf
    && (c.PlainCondition? ==> row.position > c.position)
    && (c.FilteredCondition? ==>
          && row.joined.Some? && row.joined.value.0 > c.lock.position
          && Matches(holds, c.lock.filter, row.joined.value.1))
  }

  /** A joined query is needed as soon as one of the conditions has a filtered lock. */
  predicate Fits(c: LockCondition, row: JoinedRow) { c.FilteredCondition? ==> row.joined.Some? }

  // ---------------------------------------------------------------- reading the text

  function ConditionTree(c: LockCondition): Expr
    requires ConditionReadable(c)
  {
    if c.PlainCondition? then AndE(Leaf(FieldIs, [Key(c.cf)]), Leaf(FieldAfter, [After(c.position)]))
    else
      var e := AndE(Leaf(EventAfter, [After(c.lock.position)]), Leaf(FieldIs, [Key(c.cf)]));
      if c.lock.filter.None? then e else AndE(e, Tree(c.lock.filter.value))
  }

  function LocksTree(cs: seq<LockCondition>): Expr
    requires |cs| > 0 && forall c | c in cs :: ConditionReadable(c)
    decreases |cs|
  {
    if |cs| == 1 then ConditionTree(cs[0]) else OrE(LocksTree(Init(cs)), ConditionTree(cs[|cs| - 1]))
  }

  /** Two conditions joined by AND, and what comes after them. */
  lemma ParsePair(c: Condition, d: Condition, x: Argument, y: Argument, rest: seq<Token>, more: seq<Argument>)
    requires Placeholders(c) == Placeholders(d) == 1
    ensures ParseAnd([Cond(c), AND, Cond(d)] + rest, [x, y] + more)
      == AndRest(Parsed(AndE(Leaf(c, [x]), Leaf(d, [y])), rest, more))
  {
    var ts, args := [Cond(c), AND, Cond(d)] + rest, [x, y] + more;
    assert args[..1] == [x] && args[1..] == [y] + more && args[1..][..1] == [y] && args[1..][1..] == more;
    assert ts[1..] == [AND, Cond(d)] + rest && ts[1..][1..] == [Cond(d)] + rest && ts[1..][1..][1..] == rest;
    assert ParseNot(ts, args) == Some(Parsed(Leaf(c, [x]), ts[1..], args[1..]));
    assert ParseNot(ts[1..][1..], args[1..]) == Some(Parsed(Leaf(d, [y]), rest, more));
  }

  /** A spliced filter takes just its own arguments. */
  lemma ParseCondition(c: LockCondition, rest: seq<Token>, more: seq<Argument>)
    requires ConditionOk(c)
    ensures ParseNot(InParentheses(ConditionSql(c).tokens, rest), ConditionSql(c).args + more)
      == if ConditionReadable(c) then Some(Parsed(ConditionTree(c), rest, more)) else None
  {
    hide Compiled, Tree, Comparable, NonEmptyLists, ParseAnd;
    var sql := ConditionSql(c);
    var ts, args, end := InParentheses(sql.tokens, rest), sql.args + more, [RParen] + rest;
    assert ts[0] == LParen && ts[1..] == sql.tokens + end && end[1..] == rest;
    if ConditionReadable(c) { ClosedEnds(ConditionTree(c), end, more); }
    if c.PlainCondition? {
      ParsePair(FieldIs, FieldAfter, Key(c.cf), After(c.position), end, more);
    } else if c.lock.filter.None? {
      ParsePair(EventAfter, FieldIs, After(c.lock.position), Key(c.cf), end, more);
    } else {
      var f := c.lock.filter.value;
      var inner := InParentheses(Compiled(f).tokens, end);
      assert ts[1..] == [Cond(EventAfter), AND, Cond(FieldIs)] + ([AND] + inner);
      assert args == [After(c.lock.position), Key(c.cf)] + (Compiled(f).args + more);
      ParsePair(EventAfter, FieldIs, After(c.lock.position), Key(c.cf), [AND] + inner, Compiled(f).args + more);
      assert ([AND] + inner)[1..] == inner;
      if NonEmptyLists(f) {
        ParseParenthesised(Not(f), f, end, more);
      } else {
        EmptyInside(Not(f), f, end, more);
      }
    }
  }

  lemma OneLockOnly(cs: seq<LockCondition>)
    requires |cs| == 1 && ConditionOk(cs[0]) && forall c | c in cs :: ConditionOk(c)
    ensures forall rest :: LocksSql(cs).tokens + rest == InParentheses(ConditionSql(cs[0]).tokens, rest)
    ensures LocksSql(cs).args == ConditionSql(cs[0]).args
  {
    hide ConditionSql, ConditionOk;
    assert LocksSql(Init(cs)) == Sql([], []);
  }

  lemma MoreLocks(cs: seq<LockCondition>)
    requires |cs| > 1 && ConditionOk(cs[|cs| - 1]) && forall c | c in cs :: ConditionOk(c)
    ensures var front, last := LocksSql(Init(cs)), ConditionSql(cs[|cs| - 1]);
      && LocksSql(cs).tokens == front.tokens + [OR] + [LParen] + last.tokens + [RParen]
      && LocksSql(cs).args == front.args + last.args
  {
    hide ConditionSql, ConditionOk;
  }

  lemma LastLock(cs: seq<LockCondition>, rest: seq<Token>, more: seq<Argument>)
    requires |cs| > 0 && ConditionOk(cs[|cs| - 1]) && forall c | c in cs :: ConditionOk(c)
    ensures var last := ConditionSql(cs[|cs| - 1]);
      var tail := InParentheses(last.tokens, rest);
      var front := LocksSql(Init(cs));
      && (|cs| == 1 ==> LocksSql(cs).tokens + rest == tail && LocksSql(cs).args + more == last.args + more)
      && (|cs| > 1 ==> LocksSql(cs).tokens + rest == front.tokens + ([OR] + tail))
      && (|cs| > 1 ==> LocksSql(cs).args + more == front.args + (last.args + more))
      && ([OR] + tail)[1..] == tail
  {
    hide ConditionSql, ConditionOk, LocksSql, InParentheses;
    var front, last := LocksSql(Init(cs)), ConditionSql(cs[|cs| - 1]);
    Spliced(front.tokens, OR, last.tokens, rest);
    Regrouped(front.args, last.args, more);
    if |cs| == 1 {
      OneLockOnly(cs);
    } else {
      MoreLocks(cs);
    }
  }

  lemma {:induction false} ParseLocks(cs: seq<LockCondition>, rest: seq<Token>, more: seq<Argument>)
    requires |cs| > 0 && (forall c | c in cs :: ConditionOk(c)) && (rest == [] || rest[0] != AND)
    ensures ParseOr(LocksSql(cs).tokens + rest, LocksSql(cs).args + more) ==
      if forall c | c in cs :: ConditionReadable(c) then OrRest(Parsed(LocksTree(cs), rest, more)) else None
    decreases |cs|
  {
    hide InParentheses, ConditionSql, ConditionTree, ConditionOk, ConditionReadable, ParseNot;
    var n := |cs| - 1;
    assert cs[n] in cs && forall c | c in cs :: c in Init(cs) || c == cs[n];
    var last := ConditionSql(cs[n]);
    var tail := InParentheses(last.tokens, rest);
    ParseCondition(cs[n], rest, more);
    LastLock(cs, rest, more);
    assert ConditionReadable(cs[n]) ==>
      ParseAnd(tail, last.args + more) == Some(Parsed(ConditionTree(cs[n]), rest, more));
    assert !ConditionReadable(cs[n]) ==> ParseAnd(tail, last.args + more) == None;
    if n > 0 {
      ParseLocks(Init(cs), [OR] + tail, last.args + more);
    }
  }

  predicate OfFilter(c: Condition) { !c.FieldIs? && !c.FieldAfter? && !c.EventAfter? }

  /** A filter cannot tell apart two semantics that agree on the conditions it compiles to. */
  lemma {:induction false} SameMeaning(f: Filter, a: Semantics, b: Semantics)
    requires Comparable(f) && forall c, args | OfFilter(c) :: a(c, args) == b(c, args)
    ensures Meaning(f, a) == Meaning(f, b)
    decreases f, 1
  {
    match f
    case Compare(_, op, value) => assert OfFilter(ConditionFor(op, value).value);
    case Not(part) => SameMeaning(part, a, b);
    case And(parts) => SameParts(f, parts, a, b);
    case Or(parts) => SameParts(f, parts, a, b);
  }

  lemma {:induction false} SameParts(f: Filter, parts: seq<Filter>, a: Semantics, b: Semantics)
    requires forall p | p in parts :: p < f && Comparable(p)
    requires forall c, args | OfFilter(c) :: a(c, args) == b(c, args)
    ensures forall t :: SomeMean(f, parts, a, t) == SomeMean(f, parts, b, t)
    decreases f, 0
  {
    hide Comparable, Meaning, OfFilter;
    forall p | p in parts
      ensures Meaning(p, a) == Meaning(p, b)
    {
      SameMeaning(p, a, b);
    }
  }

  lemma ConditionMeans(c: LockCondition, holds: ModelSemantics, row: JoinedRow)
    requires ConditionReadable(c) && Fits(c, row)
    ensures Eval(ConditionTree(c), RowSemantics(holds, row)) == True <==> Demands(c, holds, row)
  {
    hide Tree, Meaning, Comparable, NonEmptyLists;
    var sem := RowSemantics(holds, row);
    if c.FilteredCondition? {
      var e := AndE(Leaf(EventAfter, [After(c.lock.position)]), Leaf(FieldIs, [Key(c.cf)]));
      assert Eval(e, sem) == AndT(sem(EventAfter, [After(c.lock.position)]), sem(FieldIs, [Key(c.cf)]));
      if HasFilter(c) {
        TreeMeans(c.lock.filter.value, sem);
        SameMeaning(c.lock.filter.value, sem, OnModel(holds, row.joined.value.1));
      }
    } else {
      assert Eval(ConditionTree(c), sem) == AndT(sem(FieldIs, [Key(c.cf)]), sem(FieldAfter, [After(c.position)]));
    }
  }

  lemma {:induction false} LocksMean(cs: seq<LockCondition>, holds: ModelSemantics, row: JoinedRow)
    requires |cs| > 0 && forall c | c in cs :: ConditionReadable(c) && Fits(c, row)
    ensures Eval(LocksTree(cs), RowSemantics(holds, row)) == True <==> exists c | c in cs :: Demands(c, holds, row)
    decreases |cs|
  {
    hide ConditionTree, Demands, RowSemantics, ConditionReadable;
    var n := |cs| - 1;
    assert cs[n] in cs && forall c | c in cs :: c in Init(cs) || c == cs[n];
    ConditionMeans(cs[n], holds, row);
    if n > 0 { LocksMean(Init(cs), holds, row); }
  }

  /** The where clause of the query selects just the rows that one of the locks demands. */
  lemma LocksSelect(cs: seq<LockCondition>, holds: ModelSemantics, row: JoinedRow)
    requires |cs| > 0 && (forall c | c in cs :: ConditionOk(c)) && forall c | c in cs :: Fits(c, row)
    ensures var parsed := ParseOr(LocksSql(cs).tokens, LocksSql(cs).args);
      && (parsed.Some? <==> forall c | c in cs :: ConditionReadable(c))
      && (parsed.Some? ==> parsed.value.tokens == [] && parsed.value.args == [])
      && (parsed.Some? ==>
            (Eval(parsed.value.e, RowSemantics(holds, row)) == True <==> exists c | c in cs :: Demands(c, holds, row)))
  {
    hide Demands, ConditionReadable, RowSemantics, LocksSql, ConditionOk, LocksTree;
    assert LocksSql(cs).tokens + [] == LocksSql(cs).tokens && LocksSql(cs).args + [] == LocksSql(cs).args;
    ParseLocks(cs, [], []);
    if forall c | c in cs :: ConditionReadable(c) { LocksMean(cs, holds, row); }
  }
}
