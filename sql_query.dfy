/** The `SQLQuery` context object of querykit/core/sql_query.py: a statement
    whose slots and component list are updated in place, and whose
    `validate` and `parse` read that state. Each method is proved against the
    value-level definitions of module QueryCore applied to `View()`. */
module SqlQuery {
  import opened Wrappers
  import QueryCore
  import StatementFacts

  class SQLQuery {
    var strategy: QueryCore.Strategy
    var components: seq<QueryCore.Component>
    /** The columns of `select_component`, or None while no Select is set. */
    var selectColumns: Option<seq<string>>
    /** The table of `from_component`, or None while no From is set. */
    var fromTable: Option<string>

    /** The statement as a value. */
    function View(): QueryCore.Query
      reads this
    {
      QueryCore.Query(selectColumns, fromTable, components, strategy)
    }

    constructor(strategy: QueryCore.Strategy)
      ensures View() == QueryCore.EmptyQuery(strategy)
    {
      this.strategy := strategy;
      components := [];
      selectColumns := None;
      fromTable := None;
    }

    /** Overwrites the SELECT slot; everything else is kept. */
    method SetSelect(columns: seq<string>)
      modifies this
      ensures View() == old(View()).(selectColumns := Some(columns))
    {
      selectColumns := Some(columns);
    }

    /** Overwrites the FROM slot; everything else is kept. */
    method SetFrom(table: string)
      modifies this
      ensures View() == old(View()).(fromTable := Some(table))
    {
      fromTable := Some(table);
    }

    /** Appends at the end; the earlier components, both slots and the
        strategy are kept. */
    method AddComponent(component: QueryCore.Component)
      modifies this
      ensures View() == old(View()).(components := old(components) + [component])
    {
      components := components + [component];
    }

    method SetStrategy(strategy: QueryCore.Strategy)
      modifies this
      ensures View() == old(View()).(strategy := strategy)
    {
      this.strategy := strategy;
    }

    /** `validate()`: the three rules, then a loop over the components that
        validates every Subquery's statement. It changes nothing (no
        `modifies` clause), and it passes exactly on well-formed statements. */
    method Validate() returns (o: Outcome<QueryCore.QueryError>)
      ensures o == QueryCore.Validate(View())
      ensures o.Pass? <==> StatementFacts.WellFormed(View())
    {
      StatementFacts.ValidateIffWellFormed(View());
      if selectColumns.Some? && fromTable.None? {
        return Fail(QueryCore.ValueError(QueryCore.SelectNeedsFrom));
      }
      if QueryCore.HasUpdate(components) && !QueryCore.HasSet(components) {
        return Fail(QueryCore.ValueError(QueryCore.UpdateNeedsSet));
      }
      if QueryCore.HasDelete(components) && fromTable.Some? {
        return Fail(QueryCore.ValueError(QueryCore.DeleteForbidsFrom));
      }
      var i := 0;
      while i < |components|
        invariant 0 <= i <= |components|
        invariant QueryCore.ValidateSubqueries(components) == QueryCore.ValidateSubqueries(components[i..])
      {
        var c := components[i];
        assert components[i..][0] == c && components[i..][1..] == components[i + 1..];
        if c.Subquery? {
          var inner := QueryCore.Validate(c.query);
          if inner.Fail? {
            return inner;
          }
        }
        i := i + 1;
      }
      o := Pass;
    }

    /** `parse()`: validate, collect Select, From and the components in that
        order, and hand the list to the strategy. */
    method Parse() returns (r: Result<string, QueryCore.QueryError>)
      ensures r == QueryCore.Parse(View())
      ensures r.Ok? ==> StatementFacts.WellFormed(View())
    {
      StatementFacts.ParseRejectsInvalid(View());
      var v := Validate();
      if v.Fail? {
        return Err(v.error);
      }
      var full: seq<QueryCore.Component> := [];
      if selectColumns.Some? {
        full := full + [QueryCore.Select(selectColumns.value)];
      }
      if fromTable.Some? {
        full := full + [QueryCore.From(fromTable.value)];
      }
      full := full + components;
      assert full == QueryCore.FullComponents(View());
      r := QueryCore.BuildQuery(strategy, full);
    }
  }

  /** The order in which the slots are filled does not show in the text:
      setting FROM before SELECT parses like SELECT before FROM, and a
      second `set_select` replaces the first. */
  method SlotOrderIrrelevant(columns: seq<string>, table: string, discarded: seq<string>)
    returns (first: Result<string, QueryCore.QueryError>, second: Result<string, QueryCore.QueryError>)
    ensures first == second
    ensures first.Ok?
  {
    var a := new SQLQuery(QueryCore.StandardStrategy);
    a.SetSelect(columns);
    a.SetFrom(table);
    var b := new SQLQuery(QueryCore.StandardStrategy);
    b.SetFrom(table);
    b.SetSelect(discarded);
    b.SetSelect(columns);
    assert a.View() == b.View();
    StatementFacts.ParseSucceedsIffWellFormed(a.View());
    first := a.Parse();
    second := b.Parse();
  }

  /** Parsing reads the statement and changes nothing, so an unmodified
      statement parses to the same result twice. */
  method ParseTwice(q: SQLQuery) returns (first: Result<string, QueryCore.QueryError>, second: Result<string, QueryCore.QueryError>)
    ensures first == second && first == QueryCore.Parse(q.View())
  {
    first := q.Parse();
    second := q.Parse();
  }
}
