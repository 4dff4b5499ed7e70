/** The value layer of querykit: the clause components and their `to_sql`
    (querykit/core/query_components.py), the render strategies
    (querykit/core/query_strategy.py), and what `SQLQuery.validate`,
    `SQLQuery.parse` and `Subquery.to_sql` compute from a snapshot of a
    statement (querykit/core/sql_query.py).

    A `Subquery` component holds a statement and a statement holds
    components, so rendering and parsing are mutually recursive and live in
    one module. */
module QueryCore {
  import Text
  import opened Wrappers

  /** The exceptions the statement layer raises. */
  datatype QueryError =
    | ValueError(message: string)           // a structural rule is broken
    | NotImplementedError(message: string)  // the abstract base strategy was asked to build

  const SelectNeedsFrom: string := "SELECT query requires a FROM clause."
  const UpdateNeedsSet: string := "UPDATE query requires a SET clause."
  const DeleteForbidsFrom: string := "DELETE query should not have a FROM clause explicitly."
  const MustBeImplemented: string := "Must be implemented in subclasses"

  /** The render strategy a statement holds: the abstract `QueryStrategy`
      base class, whose `build_query` always raises, or the concrete
      space-joining strategy (`StandardQueryStrategy`; the earlier
      `SimpleQueryStrategy` is the same code). */
  datatype Strategy = AbstractStrategy | StandardStrategy

  /** One clause of a statement, with the constructors' defaults: an ORDER BY
      is ascending and a LIMIT has no offset unless given. The `order` is
      Python's `Optional[str]`, so an explicit `None` prints as `None`. */
  datatype Component =
    | Select(columns: seq<string>)
    | From(table: string)
    | Where(condition: string)
    | OrderBy(columns: seq<string>, order: Option<string> := Some("ASC"))
    | Join(table: string, condition: string)
    | GroupBy(columns: seq<string>)
    | Update(table: string)
    | SetClause(updates: seq<string>)
    | Delete(table: string)
    | Limit(limit: int, offset: Option<int> := None)
    | Insert(table: string, columns: seq<string>, values: seq<string>)
    | Subquery(query: Query)

  /** A snapshot of an `SQLQuery`: the SELECT slot (the columns of its Select
      component), the FROM slot (the table of its From component), the
      appended components in order, and the strategy. */
  datatype Query = Query(
    selectColumns: Option<seq<string>>,
    fromTable: Option<string>,
    components: seq<Component>,
    strategy: Strategy)

  /** `SQLQuery(strategy)`: both slots empty, no components. */
  function EmptyQuery(strategy: Strategy): (q: Query)
    ensures q.selectColumns.None? && q.fromTable.None?
    ensures q.components == [] && q.strategy == strategy
  {
    Query(None, None, [], strategy)
  }

  // ---------------------------------------------------------------------
  // Nesting depth: the measure that makes rendering terminate. `parse`
  // renders a list it builds itself (Select and From in front of the
  // components), which is not a sub-value of the statement, so structural
  // order alone does not suffice.

  function QueryHeight(q: Query): (h: nat)
  {
    1 + MaxHeight(q.components)
  }

  /** The largest height among the components: no component is higher. */
  function MaxHeight(cs: seq<Component>): (m: nat)
    ensures forall i :: 0 <= i < |cs| ==> ComponentHeight(cs[i]) <= m
  {
    if |cs| == 0 then 0
    else
      var h, t := ComponentHeight(cs[0]), MaxHeight(cs[1..]);
      assert forall i :: 1 <= i < |cs| ==> cs[i] == cs[1..][i - 1];
      if h < t then t else h
  }

  function ComponentHeight(c: Component): nat
  {
    if c.Subquery? then 1 + QueryHeight(c.query) else 0
  }

  lemma MaxHeightPrepend(c: Component, cs: seq<Component>)
    requires !c.Subquery?
    ensures MaxHeight([c] + cs) == MaxHeight(cs)
  {
    assert ([c] + cs)[1..] == cs;
  }

  // ---------------------------------------------------------------------
  // Rendering

  /** The text an ORDER BY prints for its direction. */
  function OrderText(order: Option<string>): (text: string)
  {
    if order.Some? then order.value else "None"
  }

  /** `to_sql()` of one component. Every clause renders by fixed-prefix
      concatenation; only a Subquery can fail, by propagating the failure of
      its inner statement's `parse()`. */
  function ToSql(c: Component): (r: Result<string, QueryError>)
    ensures r.Err? ==> c.Subquery? && Parse(c.query) == Err(r.error)
    ensures c.Subquery? ==> (r.Ok? <==> Parse(c.query).Ok?)
    decreases ComponentHeight(c), 0, 0
  {
    match c
    case Select(cols) => Ok("SELECT " + Text.Join(", ", cols))
    case From(t) => Ok("FROM " + t)
    case Where(cond) => Ok("WHERE " + cond)
    case OrderBy(cols, order) => Ok("ORDER BY " + Text.Join(", ", cols) + " " + OrderText(order))
    case Join(t, cond) => Ok("JOIN " + t + " ON " + cond)
    case GroupBy(cols) => Ok("GROUP BY " + Text.Join(", ", cols))
    case Update(t) => Ok("UPDATE " + t)
    case SetClause(updates) => Ok("SET " + Text.Join(", ", updates))
    case Delete(t) => Ok("DELETE FROM " + t)
    case Limit(n, offset) =>
      if offset.Some? then Ok("LIMIT " + Text.IntToString(n) + " OFFSET " + Text.IntToString(offset.value))
      else Ok("LIMIT " + Text.IntToString(n))
    case Insert(t, cols, vals) =>
      Ok("INSERT INTO " + t + " (" + Text.Join(", ", cols) + ") VALUES (" + Text.Join(", ", Text.QuoteAll(vals)) + ")")
    case Subquery(inner) =>
      var text :- Parse(inner);
      Ok("(" + text + ")")
  }

  /** The `to_sql()` of each component in order; the first failure stops
      the generator and propagates. */
  function RenderAll(cs: seq<Component>): (r: Result<seq<string>, QueryError>)
    ensures r.Ok? ==> |r.value| == |cs|
    decreases MaxHeight(cs), 1, |cs|
  {
    if |cs| == 0 then Ok([])
    else
      var head :- ToSql(cs[0]);
      var tail :- RenderAll(cs[1..]);
      assert forall i :: 1 <= i < |cs| ==> cs[i] == cs[1..][i - 1];
      Ok([head] + tail)
  }

  /** `strategy.build_query(components)`. */
  function BuildQuery(strategy: Strategy, cs: seq<Component>): (r: Result<string, QueryError>)
    ensures strategy.AbstractStrategy? ==> r == Err(NotImplementedError(MustBeImplemented))
    ensures r.Ok? ==> strategy.StandardStrategy? && RenderAll(cs).Ok?
    decreases MaxHeight(cs), 2, 0
  {
    match strategy
    case AbstractStrategy => Err(NotImplementedError(MustBeImplemented))
    case StandardStrategy =>
      var texts :- RenderAll(cs);
      Ok(Text.Join(" ", texts))
  }

  /** The list `parse` hands to the strategy: Select if set, From if set,
      then the components in append order. */
  function FullComponents(q: Query): (r: seq<Component>)
    ensures |r| == |q.components| + (if q.selectColumns.Some? then 1 else 0) + (if q.fromTable.Some? then 1 else 0)
    ensures q.selectColumns.Some? ==> r[0] == Select(q.selectColumns.value)
    ensures q.fromTable.Some? ==> r[|r| - |q.components| - 1] == From(q.fromTable.value)
  {
    (if q.selectColumns.Some? then [Select(q.selectColumns.value)] else [])
    + (if q.fromTable.Some? then [From(q.fromTable.value)] else [])
    + q.components
  }

  /** After the slots come the appended components themselves, in append
      order. */
  lemma FullComponentsEndWithComponents(q: Query)
    ensures |q.components| <= |FullComponents(q)|
    ensures FullComponents(q)[|FullComponents(q)| - |q.components|..] == q.components
  {
  }

  lemma FullComponentsHeight(q: Query)
    ensures MaxHeight(FullComponents(q)) == MaxHeight(q.components)
  {
    var withFrom := (if q.fromTable.Some? then [From(q.fromTable.value)] else []) + q.components;
    if q.fromTable.Some? {
      MaxHeightPrepend(From(q.fromTable.value), q.components);
    } else {
      assert withFrom == q.components;
    }
    if q.selectColumns.Some? {
      assert FullComponents(q) == [Select(q.selectColumns.value)] + withFrom;
      MaxHeightPrepend(Select(q.selectColumns.value), withFrom);
    } else {
      assert FullComponents(q) == withFrom;
    }
  }

  /** `SQLQuery.parse()`: validate, then build the full component list with
      the statement's strategy. */
  function Parse(q: Query): (r: Result<string, QueryError>)
    ensures Validate(q).Fail? ==> r == Err(Validate(q).error)
    ensures r.Ok? ==> Validate(q).Pass? && q.strategy.StandardStrategy?
    decreases QueryHeight(q), 3, 0
  {
    match Validate(q)
    case Fail(e) => Err(e)
    case Pass =>
      FullComponentsHeight(q);
      BuildQuery(q.strategy, FullComponents(q))
  }

  // ---------------------------------------------------------------------
  // Validation

  /** Python's `any(isinstance(c, Update) for c in components)`. */
  predicate HasUpdate(cs: seq<Component>)
  {
    exists i :: 0 <= i < |cs| && cs[i].Update?
  }

  predicate HasSet(cs: seq<Component>)
  {
    exists i :: 0 <= i < |cs| && cs[i].SetClause?
  }

  predicate HasDelete(cs: seq<Component>)
  {
    exists i :: 0 <= i < |cs| && cs[i].Delete?
  }

  /** `SQLQuery.validate()`: the three structural rules in their fixed
      order, then every Subquery's inner statement in append order. */
  function Validate(q: Query): (o: Outcome<QueryError>)
    ensures o.Fail? ==> o.error.ValueError?
    ensures o.Pass? ==> q.selectColumns.Some? ==> q.fromTable.Some?
    ensures o.Pass? ==> HasUpdate(q.components) ==> HasSet(q.components)
    ensures o.Pass? ==> HasDelete(q.components) ==> q.fromTable.None?
    decreases QueryHeight(q), 1, 0
  {
    if q.selectColumns.Some? && q.fromTable.None? then Fail(ValueError(SelectNeedsFrom))
    else if HasUpdate(q.components) && !HasSet(q.components) then Fail(ValueError(UpdateNeedsSet))
    else if HasDelete(q.components) && q.fromTable.Some? then Fail(ValueError(DeleteForbidsFrom))
    else ValidateSubqueries(q.components)
  }

  /** The loop over the components that validates each Subquery's inner
      statement; the first failure propagates. */
  function ValidateSubqueries(cs: seq<Component>): (o: Outcome<QueryError>)
    ensures o.Fail? ==> o.error.ValueError?
    ensures o.Fail? ==> exists i :: 0 <= i < |cs| && cs[i].Subquery? && Validate(cs[i].query) == o
    decreases MaxHeight(cs), 0, |cs|
  {
    if |cs| == 0 then Pass
    else
      assert forall i :: 1 <= i < |cs| ==> cs[i] == cs[1..][i - 1];
      if cs[0].Subquery? then
        assert ComponentHeight(cs[0]) == 1 + QueryHeight(cs[0].query);
        match Validate(cs[0].query)
        case Fail(e) => Fail(e)
        case Pass => ValidateSubqueries(cs[1..])
      else ValidateSubqueries(cs[1..])
  }
}
