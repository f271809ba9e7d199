/** The filter compiler: from a filter tree to a condition with positional placeholders, and back. */
module Filters {
  import opened Types

  datatype Operator = Eq | Ne | Lt | Gt | Ge | Le | IEq | Like    // = != < > >= <= ~= %=

  datatype Filter =
    | Compare(field: Field, op: Operator, value: Json)
    | Not(part: Filter)
    | And(parts: seq<Filter>)
    | Or(parts: seq<Filter>)

  /** The conditions the compiler emits, as Postgres reads them. */
  datatype Condition =
    | IsNull                    // data->>%s IS NULL
    | IsNotNull                 // data->>%s IS NOT NULL
    | LowerEqual                // LOWER(data->>%s) = LOWER(%s::text)
    | ILike                     // data->>%s ILIKE %s::text
    | TextCompare(op: Operator) // data->>%s = %s::text
    | NumCompare(op: Operator)  // (data->%s)::numeric < %s
    | EventAfter                // e.position>%s
    | FieldIs                   // cf.collectionfield=%s
    | FieldAfter                // cf.position>%s

  /** What a placeholder can be filled with. */
  datatype Argument =
    | FieldName(field: Field)
    | Value(value: Json)
    | After(position: Position)
    | Key(cf: CollectionField)

  datatype Token = LParen | RParen | NOT | AND | OR | Cond(c: Condition)

  function Placeholders(c: Condition): nat {
    match c
    case LowerEqual => 2
    case ILike => 2
    case TextCompare(_) => 2
    case NumCompare(_) => 2
    case _ => 1
  }

  /** Text and arguments of a condition, in step. */
  datatype Sql = Sql(tokens: seq<Token>, args: seq<Argument>)

  /** `None` can only be compared with `=` and `!=`. */
  function ConditionFor(op: Operator, value: Json): Result<Condition> {
    if value == Null then
      match op case Eq => Ok(IsNull) case Ne => Ok(IsNotNull) case _ => Err(InvalidFormat)
    else match op
      case IEq => Ok(LowerEqual)
      case Like => Ok(ILike)
      case Eq => Ok(TextCompare(op))
      case Ne => Ok(TextCompare(op))
      case _ => Ok(NumCompare(op))
  }

  predicate Comparable(f: Filter) {
    match f
    case Compare(_, op, value) => ConditionFor(op, value).Ok?
    case Not(part) => Comparable(part)
    case And(parts) => forall p | p in parts :: Comparable(p)
    case Or(parts) => forall p | p in parts :: Comparable(p)
  }

  function Arguments(field: Field, value: Json): seq<Argument> {
    if value == Null then [FieldName(field)] else [FieldName(field), Value(value)]
  }

  function Compiled(f: Filter): Sql
    requires Comparable(f)
    decreases f, 1
  {
    match f
    case Compare(field, op, value) => Sql([Cond(ConditionFor(op, value).value)], Arguments(field, value))
    case Not(part) =>
      var inner := Compiled(part);
      Sql([NOT, LParen] + inner.tokens + [RParen], inner.args)
    case And(parts) => CompiledParts(f, parts, AND)
    case Or(parts) => CompiledParts(f, parts, OR)
  }

  function Front(parts: seq<Filter>): (front: seq<Filter>)
    requires |parts| > 0
    ensures |front| == |parts| - 1 && forall p | p in front :: p in parts
  {
    parts[..|parts| - 1]
  }

  /** `sep.join(f"({part})" for part in parts)`. */
  function CompiledParts(f: Filter, parts: seq<Filter>, sep: Token): Sql
    requires forall p | p in parts :: p < f && Comparable(p)
    decreases f, 0, |parts|
  {
    if |parts| == 0 then Sql([], [])
    else
      var front, last := CompiledParts(f, Front(parts), sep), Compiled(parts[|parts| - 1]);
      Sql(front.tokens + (if |parts| == 1 then [] else [sep]) + [LParen] + last.tokens + [RParen],
        front.args + last.args)
  }

  /** `build_filter_str`: the text is returned, the arguments are appended. */
  method BuildFilterStr(f: Filter, arguments: seq<Argument>) returns (r: Result<seq<Token>>, arguments': seq<Argument>)
    ensures r.Ok? <==> Comparable(f)
    ensures r.Ok? ==> r.value == Compiled(f).tokens && arguments' == arguments + Compiled(f).args
    ensures r.Err? ==> r.error == InvalidFormat
    decreases f, 1
  {
    match f {
      case Compare(field, op, value) =>
        var condition := ConditionFor(op, value);
        if condition.Err? {
          return Err(condition.error), arguments;
        }
        return Ok([Cond(condition.value)]), arguments + Arguments(field, value);
      case Not(part) =>
        r, arguments' := BuildFilterStr(part, arguments);
        if r.Ok? {
          r := Ok([NOT, LParen] + r.value + [RParen]);
        }
      case And(parts) =>
        r, arguments' := BuildParts(f, parts, AND, arguments);
      case Or(parts) =>
        r, arguments' := BuildParts(f, parts, OR, arguments);
    }
  }

  lemma NoParts(f: Filter, parts: seq<Filter>, sep: Token)
    ensures CompiledParts(f, parts[..0], sep) == Sql([], [])
  {}

  lemma NextPart(f: Filter, front: seq<Filter>, part: Filter, parts: seq<Filter>, sep: Token)
    requires parts == front + [part]
    requires part < f && Comparable(part) && forall p | p in front :: p < f && Comparable(p)
    ensures forall p | p in parts :: p < f && Comparable(p)
    ensures CompiledParts(f, parts, sep) == Sql(
      CompiledParts(f, front, sep).tokens + (if front == [] then [] else [sep])
        + [LParen] + Compiled(part).tokens + [RParen],
      CompiledParts(f, front, sep).args + Compiled(part).args)
  {
    hide Compiled, Comparable;
    assert Front(parts) == front && parts[|parts| - 1] == part;
  }

  method BuildParts(f: Filter, parts: seq<Filter>, sep: Token, arguments: seq<Argument>)
    returns (r: Result<seq<Token>>, arguments': seq<Argument>)
    requires forall p | p in parts :: p < f
    ensures r.Ok? <==> forall p | p in parts :: Comparable(p)
    ensures r.Ok? ==>
      r.value == CompiledParts(f, parts, sep).tokens && arguments' == arguments + CompiledParts(f, parts, sep).args
    ensures r.Err? ==> r.error == InvalidFormat
    decreases f, 0
  {
    hide Comparable, Compiled, CompiledParts;
    NoParts(f, parts, sep);
    var text: seq<Token> := [];
    arguments' := arguments;
    for i := 0 to |parts|
      invariant forall j | 0 <= j < i :: Comparable(parts[j])
      invariant forall p | p in parts[..i] :: p < f && Comparable(p)
      invariant text == CompiledParts(f, parts[..i], sep).tokens
      invariant arguments' == arguments + CompiledParts(f, parts[..i], sep).args
    {
      assert parts[i] in parts;
      var part;
      part, arguments' := BuildFilterStr(parts[i], arguments');
      if part.Err? {
        return part, arguments';
      }
      NextPart(f, parts[..i], parts[i], parts[..i + 1], sep);
      text := text + (if i == 0 then [] else [sep]) + [LParen] + part.value + [RParen];
    }
    assert parts[..|parts|] == parts;
    r := Ok(text);
  }

  // ---------------------------------------------------------------- how the database reads it

  /** A condition as parsed, every placeholder filled with the next argument. */
  datatype Expr =
    | Leaf(c: Condition, args: seq<Argument>)
    | NotE(e: Expr)
    | AndE(l: Expr, r: Expr)
    | OrE(l: Expr, r: Expr)

  datatype Parsed = Parsed(e: Expr, tokens: seq<Token>, args: seq<Argument>)

  /** OR binds weakest, then AND, then NOT; arguments are taken from the left. */
  function ParseOr(ts: seq<Token>, args: seq<Argument>): (r: Option<Parsed>)
    ensures r.Some? ==> |r.value.tokens| < |ts|
    decreases |ts|, 4
  {
    var first := ParseAnd(ts, args);
    if first.None? then None else OrRest(first.value)
  }

  function OrRest(p: Parsed): (r: Option<Parsed>)
    ensures r.Some? ==> |r.value.tokens| <= |p.tokens|
    decreases |p.tokens|, 5
  {
    if p.tokens == [] || p.tokens[0] != OR then Some(p)
    else
      var next := ParseAnd(p.tokens[1..], p.args);
      if next.None? then None else OrRest(next.value.(e := OrE(p.e, next.value.e)))
  }

  function ParseAnd(ts: seq<Token>, args: seq<Argument>): (r: Option<Parsed>)
    ensures r.Some? ==> |r.value.tokens| < |ts|
    decreases |ts|, 2
  {
    var first := ParseNot(ts, args);
    if first.None? then None else AndRest(first.value)
  }

  function AndRest(p: Parsed): (r: Option<Parsed>)
    ensures r.Some? ==> |r.value.tokens| <= |p.tokens|
    decreases |p.tokens|, 3
  {
    if p.tokens == [] || p.tokens[0] != AND then Some(p)
    else
      var next := ParseNot(p.tokens[1..], p.args);
      if next.None? then None else AndRest(next.value.(e := AndE(p.e, next.value.e)))
  }

  function ParseNot(ts: seq<Token>, args: seq<Argument>): (r: Option<Parsed>)
    ensures r.Some? ==> |r.value.tokens| < |ts|
    decreases |ts|, 1
  {
    if ts == [] then None
    else match ts[0]
      case NOT =>
        var inner := ParseNot(ts[1..], args);
        if inner.None? then None else Some(inner.value.(e := NotE(inner.value.e)))
      case LParen =>
        var inner := ParseOr(ts[1..], args);
        if inner.None? || inner.value.tokens == [] || inner.value.tokens[0] != RParen then None
        else Some(inner.value.(tokens := inner.value.tokens[1..]))
      case Cond(c) =>
        if |args| < Placeholders(c) then None
        else Some(Parsed(Leaf(c, args[..Placeholders(c)]), ts[1..], args[Placeholders(c)..]))
      case _ => None
  }

  // ---------------------------------------------------------------- the compiler is right

  predicate NonEmptyLists(f: Filter) {
    match f
    case Compare(_, _, _) => true
    case Not(part) => NonEmptyLists(part)
    case And(parts) => |parts| > 0 && forall p | p in parts :: NonEmptyLists(p)
    case Or(parts) => |parts| > 0 && forall p | p in parts :: NonEmptyLists(p)
  }

  /** The tree as an expression: lists associate to the left. */
  function Tree(f: Filter): Expr
    requires Comparable(f) && NonEmptyLists(f)
    decreases f, 1
  {
    match f
    case Compare(field, op, value) => Leaf(ConditionFor(op, value).value, Arguments(field, value))
    case Not(part) => NotE(Tree(part))
    case And(parts) => TreeParts(f, parts, AND)
    case Or(parts) => TreeParts(f, parts, OR)
  }

  function TreeParts(f: Filter, parts: seq<Filter>, sep: Token): Expr
    requires |parts| > 0 && forall p | p in parts :: p < f && Comparable(p) && NonEmptyLists(p)
    decreases f, 0, |parts|
  {
    if |parts| == 1 then Tree(parts[0])
    else Joined(sep, TreeParts(f, Front(parts), sep), Tree(parts[|parts| - 1]))
  }

  function Joined(sep: Token, l: Expr, r: Expr): Expr { if sep == AND then AndE(l, r) else OrE(l, r) }

  function InParentheses(ts: seq<Token>, rest: seq<Token>): seq<Token> { [LParen] + ts + [RParen] + rest }

  /** One more part at the end of a text. */
  lemma Spliced(front: seq<Token>, sep: Token, last: seq<Token>, rest: seq<Token>)
    ensures (front + [sep] + [LParen] + last + [RParen]) + rest == front + ([sep] + InParentheses(last, rest))
    ensures ([sep] + InParentheses(last, rest))[1..] == InParentheses(last, rest)
  {}

  lemma Regrouped<T>(a: seq<T>, b: seq<T>, c: seq<T>)
    ensures (a + b) + c == a + (b + c)
  {}

  /** What may follow a condition: the end, or a closing parenthesis. */
  predicate Closed(ts: seq<Token>) { ts == [] || ts[0] == RParen }

  /** Nothing continues an expression before a closing parenthesis. */
  lemma ClosedEnds(e: Expr, ts: seq<Token>, args: seq<Argument>)
    requires Closed(ts)
    ensures AndRest(Parsed(e, ts, args)) == OrRest(Parsed(e, ts, args)) == Some(Parsed(e, ts, args))
  {}

  /** A compiled filter parses back to its tree, and uses up exactly its own arguments. */
  lemma {:induction false} ParseCompiled(f: Filter, rest: seq<Token>, more: seq<Argument>)
    requires Comparable(f) && NonEmptyLists(f) && Closed(rest)
    ensures ParseOr(Compiled(f).tokens + rest, Compiled(f).args + more) == Some(Parsed(Tree(f), rest, more))
    decreases f, 1
  {
    match f
    case Compare(field, op, value) =>
      var c := ConditionFor(op, value).value;
      var ts, args := [Cond(c)] + rest, Arguments(field, value) + more;
      assert ts[1..] == rest;
      assert args[..Placeholders(c)] == Arguments(field, value) && args[Placeholders(c)..] == more;
      ClosedEnds(Tree(f), rest, more);
      assert ParseNot(ts, args) == Some(Parsed(Tree(f), rest, more));
    case Not(part) =>
      var inner := Compiled(part);
      var ts := [NOT, LParen] + inner.tokens + [RParen] + rest;
      assert Compiled(f).tokens + rest == ts;
      assert ts[1..] == InParentheses(inner.tokens, rest);
      ParseParenthesised(f, part, rest, more);
      ClosedEnds(NotE(Tree(part)), rest, more);
      assert ParseNot(ts, inner.args + more) == Some(Parsed(NotE(Tree(part)), rest, more));
    case And(parts) =>
      ParseAndParts(f, parts, rest, more);
      ClosedEnds(Tree(f), rest, more);
    case Or(parts) =>
      ParseOrParts(f, parts, rest, more);
      ClosedEnds(Tree(f), rest, more);
  }

  lemma {:induction false} ParseParenthesised(f: Filter, part: Filter, rest: seq<Token>, more: seq<Argument>)
    requires part < f && Comparable(part) && NonEmptyLists(part)
    ensures ParseNot(InParentheses(Compiled(part).tokens, rest), Compiled(part).args + more)
      == Some(Parsed(Tree(part), rest, more))
    decreases f, 0, 0
  {
    var inner := Compiled(part);
    var ts := InParentheses(inner.tokens, rest);
    assert ts[1..] == inner.tokens + ([RParen] + rest);
    ParseCompiled(part, [RParen] + rest, more);
    assert ([RParen] + rest)[1..] == rest;
  }

  lemma LastPart(f: Filter, parts: seq<Filter>, sep: Token, rest: seq<Token>, more: seq<Argument>)
    requires |parts| > 1 && forall p | p in parts :: p < f && Comparable(p)
    ensures var last := Compiled(parts[|parts| - 1]);
      var tail := InParentheses(last.tokens, rest);
      var front := CompiledParts(f, Front(parts), sep);
      && CompiledParts(f, parts, sep).tokens + rest == front.tokens + ([sep] + tail)
      && CompiledParts(f, parts, sep).args + more == front.args + (last.args + more)
      && ([sep] + tail)[1..] == tail
  {
    hide Compiled, Comparable, InParentheses;
    var front, last := CompiledParts(f, Front(parts), sep), Compiled(parts[|parts| - 1]);
    Spliced(front.tokens, sep, last.tokens, rest);
    Regrouped(front.args, last.args, more);
  }

  lemma OnePart(f: Filter, parts: seq<Filter>, sep: Token, rest: seq<Token>, more: seq<Argument>)
    requires |parts| == 1 && forall p | p in parts :: p < f && Comparable(p)
    ensures CompiledParts(f, parts, sep).tokens + rest == InParentheses(Compiled(parts[0]).tokens, rest)
    ensures CompiledParts(f, parts, sep).args + more == Compiled(parts[0]).args + more
    ensures NonEmptyLists(parts[0]) ==> TreeParts(f, parts, sep) == Tree(parts[0])
  {
    hide Compiled, Comparable, Tree, NonEmptyLists;
    assert Front(parts) == [];
    assert CompiledParts(f, Front(parts), sep) == Sql([], []);
  }

  lemma MoreParts(f: Filter, parts: seq<Filter>, sep: Token)
    requires |parts| > 1 && forall p | p in parts :: p < f && Comparable(p) && NonEmptyLists(p)
    ensures TreeParts(f, parts, sep) == Joined(sep, TreeParts(f, Front(parts), sep), Tree(parts[|parts| - 1]))
  {}

  lemma {:induction false} ParseAndParts(f: Filter, parts: seq<Filter>, rest: seq<Token>, more: seq<Argument>)
    requires |parts| > 0 && forall p | p in parts :: p < f && Comparable(p) && NonEmptyLists(p)
    ensures ParseAnd(CompiledParts(f, parts, AND).tokens + rest, CompiledParts(f, parts, AND).args + more)
      == AndRest(Parsed(TreeParts(f, parts, AND), rest, more))
    decreases f, 0, |parts|
  {
    hide InParentheses, Compiled, CompiledParts, Tree, TreeParts, ParseNot, Comparable, NonEmptyLists;
    var n := |parts| - 1;
    assert parts[n] in parts;
    ParseParenthesised(f, parts[n], rest, more);
    if n == 0 {
      OnePart(f, parts, AND, rest, more);
    } else {
      var last := Compiled(parts[n]);
      var tail := InParentheses(last.tokens, rest);
      MoreParts(f, parts, AND);
      LastPart(f, parts, AND, rest, more);
      ParseAndParts(f, Front(parts), [AND] + tail, last.args + more);
    }
  }

  lemma {:induction false} ParseOrParts(f: Filter, parts: seq<Filter>, rest: seq<Token>, more: seq<Argument>)
    requires |parts| > 0 && forall p | p in parts :: p < f && Comparable(p) && NonEmptyLists(p)
    requires rest == [] || rest[0] != AND
    ensures ParseOr(CompiledParts(f, parts, OR).tokens + rest, CompiledParts(f, parts, OR).args + more)
      == OrRest(Parsed(TreeParts(f, parts, OR), rest, more))
    decreases f, 0, |parts|
  {
    hide InParentheses, Compiled, CompiledParts, Tree, TreeParts, ParseNot, Comparable, NonEmptyLists;
    var n := |parts| - 1;
    assert parts[n] in parts;
    ParseParenthesised(f, parts[n], rest, more);
    var last := Compiled(parts[n]);
    var tail := InParentheses(last.tokens, rest);
    assert ParseAnd(tail, last.args + more) == Some(Parsed(Tree(parts[n]), rest, more));
    if n == 0 {
      OnePart(f, parts, OR, rest, more);
    } else {
      MoreParts(f, parts, OR);
      LastPart(f, parts, OR, rest, more);
      ParseOrParts(f, Front(parts), [OR] + tail, last.args + more);
    }
  }

  // ---------------------------------------------------------------- empty lists

  lemma NothingFails(rest: seq<Token>, more: seq<Argument>)
    requires Closed(rest)
    ensures ParseOr([] + rest, [] + more) == None
  {
    assert [] + rest == rest && [] + more == more;
    assert ParseNot(rest, more) == None;
  }

  /** A filter with an empty list somewhere becomes text that is no condition. */
  lemma {:induction false} EmptyListFails(f: Filter, rest: seq<Token>, more: seq<Argument>)
    requires Comparable(f) && !NonEmptyLists(f) && Closed(rest)
    ensures ParseOr(Compiled(f).tokens + rest, Compiled(f).args + more) == None
    decreases f, 1
  {
    match f
    case Not(part) =>
      var ts := Compiled(f).tokens + rest;
      assert ts[1..] == InParentheses(Compiled(part).tokens, rest);
      EmptyInside(f, part, rest, more);
      assert ParseNot(ts, Compiled(part).args + more) == None;
    case And(parts) =>
      if |parts| == 0 { NothingFails(rest, more); } else { EmptyPart(f, parts, AND, rest, more); }
    case Or(parts) =>
      if |parts| == 0 { NothingFails(rest, more); } else { EmptyPart(f, parts, OR, rest, more); }
  }

  lemma {:induction false} EmptyInside(f: Filter, part: Filter, rest: seq<Token>, more: seq<Argument>)
    requires part < f && Comparable(part) && !NonEmptyLists(part)
    ensures ParseNot(InParentheses(Compiled(part).tokens, rest), Compiled(part).args + more) == None
    decreases f, 0, 0
  {
    var ts := InParentheses(Compiled(part).tokens, rest);
    assert ts[1..] == Compiled(part).tokens + ([RParen] + rest);
    EmptyListFails(part, [RParen] + rest, more);
  }

  lemma {:induction false} EmptyPart(f: Filter, parts: seq<Filter>, sep: Token, rest: seq<Token>, more: seq<Argument>)
    requires |parts| > 0 && forall p | p in parts :: p < f && Comparable(p)
    requires exists p | p in parts :: !NonEmptyLists(p)
    ensures sep == AND ==>
      ParseAnd(CompiledParts(f, parts, sep).tokens + rest, CompiledParts(f, parts, sep).args + more) == None
    ensures sep == OR ==>
      ParseOr(CompiledParts(f, parts, sep).tokens + rest, CompiledParts(f, parts, sep).args + more) == None
    decreases f, 0, |parts|
  {
    hide InParentheses, Compiled, CompiledParts, Tree, TreeParts, ParseNot, Comparable, NonEmptyLists;
    var n := |parts| - 1;
    assert parts[n] in parts;
    var last := Compiled(parts[n]);
    var tail := InParentheses(last.tokens, rest);
    if n == 0 {
      EmptyInside(f, parts[n], rest, more);
      OnePart(f, parts, sep, rest, more);
    } else {
      LastPart(f, parts, sep, rest, more);
      assert forall p | p in parts :: p in Front(parts) || p == parts[n];
      if exists p | p in Front(parts) :: !NonEmptyLists(p) {
        EmptyPart(f, Front(parts), sep, [sep] + tail, last.args + more);
      } else {
        EmptyInside(f, parts[n], rest, more);
        if sep == AND { ParseAndParts(f, Front(parts), [AND] + tail, last.args + more); }
        if sep == OR { ParseOrParts(f, Front(parts), [OR] + tail, last.args + more); }
      }
    }
  }

  // ---------------------------------------------------------------- three-valued logic

  datatype Truth = True | False | Unknown

  function NotT(t: Truth): Truth { match t case True => False case False => True case Unknown => Unknown }
  function AndT(a: Truth, b: Truth): Truth {
    if a == False || b == False then False else if a == Unknown || b == Unknown then Unknown else True
  }
  function OrT(a: Truth, b: Truth): Truth { NotT(AndT(NotT(a), NotT(b))) }

  /** How the database evaluates a single condition on a row. */
  type Semantics = (Condition, seq<Argument>) -> Truth

  function Eval(e: Expr, sem: Semantics): Truth {
    match e
    case Leaf(c, args) => sem(c, args)
    case NotE(x) => NotT(Eval(x, sem))
    case AndE(l, r) => AndT(Eval(l, sem), Eval(r, sem))
    case OrE(l, r) => OrT(Eval(l, sem), Eval(r, sem))
  }

  /** The meaning of a filter tree: all parts, some part, or the contrary. */
  function Meaning(f: Filter, sem: Semantics): Truth
    requires Comparable(f)
    decreases f, 1
  {
    match f
    case Compare(field, op, value) => sem(ConditionFor(op, value).value, Arguments(field, value))
    case Not(part) => NotT(Meaning(part, sem))
    case And(parts) =>
      if SomeMean(f, parts, sem, False) then False
      else if SomeMean(f, parts, sem, Unknown) then Unknown
      else True
    case Or(parts) =>
      if SomeMean(f, parts, sem, True) then True
      else if SomeMean(f, parts, sem, Unknown) then Unknown
      else False
  }

  predicate SomeMean(f: Filter, parts: seq<Filter>, sem: Semantics, t: Truth)
    requires forall p | p in parts :: p < f && Comparable(p)
    decreases f, 0
  {
    exists p | p in parts :: Meaning(p, sem) == t
  }

  lemma {:induction false} TreeMeans(f: Filter, sem: Semantics)
    requires Comparable(f) && NonEmptyLists(f)
    ensures Eval(Tree(f), sem) == Meaning(f, sem)
    decreases f, 1
  {
    match f
    case Compare(_, _, _) =>
    case Not(part) => TreeMeans(part, sem);
    case And(parts) => AndMeans(f, parts, sem);
    case Or(parts) => OrMeans(f, parts, sem);
  }

  lemma LastMeans(f: Filter, parts: seq<Filter>, sem: Semantics, t: Truth)
    requires parts != [] && forall p | p in parts :: p < f && Comparable(p)
    ensures SomeMean(f, parts, sem, t)
      <==> SomeMean(f, Front(parts), sem, t) || Meaning(parts[|parts| - 1], sem) == t
  {
    hide Meaning, Comparable;
    assert forall p | p in parts :: p in Front(parts) || p == parts[|parts| - 1];
  }

  lemma {:induction false} AndMeans(f: Filter, parts: seq<Filter>, sem: Semantics)
    requires |parts| > 0 && forall p | p in parts :: p < f && Comparable(p) && NonEmptyLists(p)
    ensures Eval(TreeParts(f, parts, AND), sem) == if SomeMean(f, parts, sem, False) then False
      else if SomeMean(f, parts, sem, Unknown) then Unknown else True
    decreases f, 0, |parts|
  {
    hide Meaning, Tree, TreeParts, Comparable, NonEmptyLists;
    var n := |parts| - 1;
    assert parts[n] in parts;
    LastMeans(f, parts, sem, False);
    LastMeans(f, parts, sem, Unknown);
    TreeMeans(parts[n], sem);
    if n > 0 {
      MoreParts(f, parts, AND);
      AndMeans(f, Front(parts), sem);
    } else {
      OnePart(f, parts, AND, [], []);
    }
  }

  lemma {:induction false} OrMeans(f: Filter, parts: seq<Filter>, sem: Semantics)
    requires |parts| > 0 && forall p | p in parts :: p < f && Comparable(p) && NonEmptyLists(p)
    ensures Eval(TreeParts(f, parts, OR), sem) == if SomeMean(f, parts, sem, True) then True
      else if SomeMean(f, parts, sem, Unknown) then Unknown else False
    decreases f, 0, |parts|
  {
    hide Meaning, Tree, TreeParts, Comparable, NonEmptyLists;
    var n := |parts| - 1;
    assert parts[n] in parts;
    LastMeans(f, parts, sem, True);
    LastMeans(f, parts, sem, Unknown);
    TreeMeans(parts[n], sem);
    if n > 0 {
      MoreParts(f, parts, OR);
      OrMeans(f, Front(parts), sem);
    } else {
      OnePart(f, parts, OR, [], []);
    }
  }

  /**
   * The database can read the text exactly when no list in the filter is empty; it then uses up just
   * the appended arguments, and the condition has the meaning of the filter.
   */
  lemma CompiledMeans(f: Filter, sem: Semantics)
    requires Comparable(f)
    ensures var parsed := ParseOr(Compiled(f).tokens, Compiled(f).args);
      && (parsed.Some? <==> NonEmptyLists(f))
      && (parsed.Some? ==> parsed.value.tokens == [] && parsed.value.args == [])
      && (parsed.Some? ==> Eval(parsed.value.e, sem) == Meaning(f, sem))
  {
    assert Compiled(f).tokens + [] == Compiled(f).tokens && Compiled(f).args + [] == Compiled(f).args;
    if NonEmptyLists(f) {
      ParseCompiled(f, [], []);
      TreeMeans(f, sem);
    } else {
      EmptyListFails(f, [], []);
    }
  }

  // ---------------------------------------------------------------- single conditions on a model

  /** How the database compares two values that are there: as texts, as numbers, without case, by a pattern. */
  datatype ValueTests = ValueTests(
    text: (Operator, Json, Json) -> bool,
    number: (Operator, Json, Json) -> bool,
    lower: (Json, Json) -> bool,
    like: (Json, Json) -> bool)

  /** Equality compares texts, an order compares numbers. */
  function Compares(tests: ValueTests, op: Operator, a: Json, b: Json): bool {
    match op
    case Eq => tests.text(Eq, a, b)
    case Ne => tests.text(Ne, a, b)
    case IEq => tests.lower(a, b)
    case Like => tests.like(a, b)
    case _ => tests.number(op, a, b)
  }

  function Decide(b: bool): Truth { if b then True else False }

  /** A field without a value reads as null, and so does the null of JSON. */
  predicate Given(data: Model, field: Field) { field in data && data[field] != Null }

  function Tested(tests: ValueTests, c: Condition, a: Json, b: Json): bool {
    match c
    case LowerEqual => tests.lower(a, b)
    case ILike => tests.like(a, b)
    case TextCompare(op) => tests.text(op, a, b)
    case NumCompare(op) => tests.number(op, a, b)
    case _ => false
  }

  /** The conditions the compiler emits, evaluated on the data of a model: a comparison with null is unknown. */
  function OnData(data: Model, tests: ValueTests): Semantics {
    (c: Condition, args: seq<Argument>) =>
      if |args| != Placeholders(c) || !args[0].FieldName? then Unknown
      else if c == IsNull then Decide(!Given(data, args[0].field))
      else if c == IsNotNull then Decide(Given(data, args[0].field))
      else if |args| != 2 || !args[1].Value? || !Given(data, args[0].field) then Unknown
      else Decide(Tested(tests, c, data[args[0].field], args[1].value))
  }

  /** The same, read off the filter: `None` asks whether the field has a value. */
  function Says(f: Filter, data: Model, tests: ValueTests): Truth
    decreases f, 1
  {
    match f
    case Compare(field, op, value) =>
      if value == Null then Decide(Given(data, field) == (op != Eq))
      else if Given(data, field) then Decide(Compares(tests, op, data[field], value))
      else Unknown
    case Not(part) => NotT(Says(part, data, tests))
    case And(parts) =>
      if SomeSay(f, parts, data, tests, False) then False
      else if SomeSay(f, parts, data, tests, Unknown) then Unknown
      else True
    case Or(parts) =>
      if SomeSay(f, parts, data, tests, True) then True
      else if SomeSay(f, parts, data, tests, Unknown) then Unknown
      else False
  }

  predicate SomeSay(f: Filter, parts: seq<Filter>, data: Model, tests: ValueTests, t: Truth)
    requires forall p | p in parts :: p < f
    decreases f, 0
  {
    exists p | p in parts :: Says(p, data, tests) == t
  }

  lemma {:induction false} SaysIsMeaning(f: Filter, data: Model, tests: ValueTests, sem: Semantics)
    requires Comparable(f) && forall c, args :: sem(c, args) == OnData(data, tests)(c, args)
    ensures Says(f, data, tests) == Meaning(f, sem)
    decreases f
  {
    match f
    case Compare(field, op, value) =>
      var c, args := ConditionFor(op, value).value, Arguments(field, value);
      assert |args| == Placeholders(c) && args[0] == FieldName(field);
      assert value != Null ==> args[1] == Value(value);
    case Not(part) => SaysIsMeaning(part, data, tests, sem);
    case And(parts) =>
      forall p | p in parts { SaysIsMeaning(p, data, tests, sem); }
      forall t { PartsSay(f, parts, data, tests, sem, t); }
    case Or(parts) =>
      forall p | p in parts { SaysIsMeaning(p, data, tests, sem); }
      forall t { PartsSay(f, parts, data, tests, sem, t); }
  }

  /** What a single comparison says, spelled out. */
  lemma ComparisonMeans(field: Field, op: Operator, value: Json, data: Model, tests: ValueTests)
    requires Comparable(Compare(field, op, value))
    ensures var says := Meaning(Compare(field, op, value), OnData(data, tests));
      var given := field in data && data[field] != Null;
      && (value == Null && op == Eq ==> (says == True <==> !given) && says != Unknown)
      && (value == Null && op == Ne ==> (says == True <==> given) && says != Unknown)
      && (value != Null && !given ==> says == Unknown)
      && (value != Null && given ==>
            && says != Unknown
            && (op == Eq ==> (says == True <==> tests.text(Eq, data[field], value)))
            && (op == Ne ==> (says == True <==> tests.text(Ne, data[field], value)))
            && (op == Lt ==> (says == True <==> tests.number(Lt, data[field], value)))
            && (op == Gt ==> (says == True <==> tests.number(Gt, data[field], value)))
            && (op == Ge ==> (says == True <==> tests.number(Ge, data[field], value)))
            && (op == Le ==> (says == True <==> tests.number(Le, data[field], value)))
            && (op == IEq ==> (says == True <==> tests.lower(data[field], value)))
            && (op == Like ==> (says == True <==> tests.like(data[field], value))))
  {
    SaysIsMeaning(Compare(field, op, value), data, tests, OnData(data, tests));
  }

  lemma PartsSay(f: Filter, parts: seq<Filter>, data: Model, tests: ValueTests, sem: Semantics, t: Truth)
    requires forall p | p in parts :: p < f && Comparable(p) && Says(p, data, tests) == Meaning(p, sem)
    ensures SomeSay(f, parts, data, tests, t) == SomeMean(f, parts, sem, t)
  {
    hide Says, Meaning, Comparable, OnData;
  }

  /** The filter compares the field. */
  predicate Names(f: Filter, field: Field) {
    match f
    case Compare(g, _, _) => g == field
    case Not(part) => Names(part, field)
    case And(parts) => exists p | p in parts :: Names(p, field)
    case Or(parts) => exists p | p in parts :: Names(p, field)
  }

  predicate SameValue(a: Model, b: Model, field: Field) {
    (Given(a, field) <==> Given(b, field)) && (Given(a, field) ==> a[field] == b[field])
  }

  /** A filter reads nothing but the fields it names. */
  lemma {:induction false} SaysReads(f: Filter, a: Model, b: Model, tests: ValueTests)
    requires forall field | Names(f, field) :: SameValue(a, b, field)
    ensures Says(f, a, tests) == Says(f, b, tests)
    decreases f
  {
    match f
    case Compare(field, _, _) => assert Names(f, field) && SameValue(a, b, field);
    case Not(part) =>
      assert forall field | Names(part, field) :: Names(f, field);
      SaysReads(part, a, b, tests);
    case And(parts) =>
      forall p | p in parts
        ensures Says(p, a, tests) == Says(p, b, tests)
      {
        assert forall field | Names(p, field) :: Names(f, field);
        SaysReads(p, a, b, tests);
      }
    case Or(parts) =>
      forall p | p in parts
        ensures Says(p, a, tests) == Says(p, b, tests)
      {
        assert forall field | Names(p, field) :: Names(f, field);
        SaysReads(p, a, b, tests);
      }
  }

  /** Every comparison is with `None` or with a field that has a value. */
  predicate Decidable(f: Filter, data: Model) {
    match f
    case Compare(field, _, value) => value == Null || Given(data, field)
    case Not(part) => Decidable(part, data)
    case And(parts) => forall p | p in parts :: Decidable(p, data)
    case Or(parts) => forall p | p in parts :: Decidable(p, data)
  }

  /** Such a filter is never unknown, so that its contrary selects just the other models. */
  lemma {:induction false} DecidableIsKnown(f: Filter, data: Model, tests: ValueTests)
    requires Decidable(f, data)
    ensures Says(f, data, tests) != Unknown
    ensures Says(Not(f), data, tests) == True <==> Says(f, data, tests) != True
    decreases f
  {
    match f
    case Compare(_, _, _) =>
    case Not(part) => DecidableIsKnown(part, data, tests);
    case And(parts) =>
      forall p | p in parts { DecidableIsKnown(p, data, tests); }
    case Or(parts) =>
      forall p | p in parts { DecidableIsKnown(p, data, tests); }
  }
}
