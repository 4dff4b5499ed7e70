/** The earlier single-file library querykit.py. Its clause components and
    its `SimpleQueryStrategy` are the same code as the package's (modelled
    once, in QueryCore, as `Component` and `StandardStrategy`); it has no
    Subquery component, its `validate` checks the three rules only, and its
    `execute` plays the part of the package's `parse`. */
module Legacy {
  import opened Wrappers
  import Text
  import QueryCore
  import StatementFacts
  import StrategyFacts

  /** The clauses querykit.py defines: every component but Subquery. */
  type PlainComponent = c: QueryCore.Component | !c.Subquery? witness QueryCore.Where("")

  /** `SQLQuery.validate()` of querykit.py: the three rules in the same order
      as the package, with no subquery step. */
  function ValidateRules(q: QueryCore.Query): (o: Outcome<QueryCore.QueryError>)
    ensures o.Pass? <==> StatementFacts.RulesHold(q)
  {
    if q.selectColumns.Some? && q.fromTable.None? then Fail(QueryCore.ValueError(QueryCore.SelectNeedsFrom))
    else if QueryCore.HasUpdate(q.components) && !QueryCore.HasSet(q.components) then Fail(QueryCore.ValueError(QueryCore.UpdateNeedsSet))
    else if QueryCore.HasDelete(q.components) && q.fromTable.Some? then Fail(QueryCore.ValueError(QueryCore.DeleteForbidsFrom))
    else Pass
  }

  /** `SQLQuery.execute()` of querykit.py: validate, then build Select,
      From and the components in append order. A broken rule is reported
      and no text is produced; text comes only from a statement that keeps
      the three rules and holds the standard strategy. */
  function ExecuteText(q: QueryCore.Query): (r: Result<string, QueryCore.QueryError>)
    ensures ValidateRules(q).Fail? ==> r == Err(ValidateRules(q).error)
    ensures r.Ok? ==> StatementFacts.RulesHold(q) && q.strategy.StandardStrategy?
  {
    match ValidateRules(q)
    case Fail(e) => Err(e)
    case Pass => QueryCore.BuildQuery(q.strategy, QueryCore.FullComponents(q))
  }

  lemma {:induction false} NoSubqueriesPass(cs: seq<QueryCore.Component>)
    requires forall i :: 0 <= i < |cs| ==> !cs[i].Subquery?
    ensures QueryCore.ValidateSubqueries(cs) == Pass
  {
    if |cs| > 0 {
      assert forall i :: 0 <= i < |cs[1..]| ==> cs[1..][i] == cs[i + 1];
      NoSubqueriesPass(cs[1..]);
    }
  }

  /** On the statements both libraries can express — those without a
      Subquery — the earlier library validates and renders exactly like the
      package. */
  lemma LegacyAgreesWithPackage(q: QueryCore.Query)
    requires forall i :: 0 <= i < |q.components| ==> !q.components[i].Subquery?
    ensures ValidateRules(q) == QueryCore.Validate(q)
    ensures ExecuteText(q) == QueryCore.Parse(q)
  {
    NoSubqueriesPass(q.components);
  }

  /** The `SQLQuery` class of querykit.py. */
  class SQLQuery {
    var strategy: QueryCore.Strategy
    var components: seq<PlainComponent>
    var selectColumns: Option<seq<string>>
    var fromTable: Option<string>

    function View(): QueryCore.Query
      reads this
    {
      QueryCore.Query(selectColumns, fromTable, components, strategy)
    }

    constructor(strategy: QueryCore.Strategy)
      ensures View() == QueryCore.EmptyQuery(strategy)
    {
      this.strategy := strategy;
      components := [];
      selectColumns := None;
      fromTable := None;
    }

    method SetSelect(columns: seq<string>)
      modifies this
      ensures View() == old(View()).(selectColumns := Some(columns))
    {
      selectColumns := Some(columns);
    }

    method SetFrom(table: string)
      modifies this
      ensures View() == old(View()).(fromTable := Some(table))
    {
      fromTable := Some(table);
    }

    method AddComponent(component: PlainComponent)
      modifies this
      ensures components == old(components) + [component]
      ensures View() == old(View()).(components := old(components) + [component])
    {
      components := components + [component];
    }

    method SetStrategy(strategy: QueryCore.Strategy)
      modifies this
      ensures View() == old(View()).(strategy := strategy)
    {
      this.strategy := strategy;
    }

    /** `execute()`: no text for a statement that breaks a rule, otherwise
        the strategy's build of Select, From and the components. */
    method Execute() returns (r: Result<string, QueryCore.QueryError>)
      ensures r == ExecuteText(View())
      ensures r == QueryCore.Parse(View())
      ensures r.Ok? ==> StatementFacts.RulesHold(View())
    {
      LegacyAgreesWithPackage(View());
      var v := ValidateRules(View());
      if v.Fail? {
        return Err(v.error);
      }
      var full: seq<QueryCore.Component> := [];
      if selectColumns.Some? {
        full := full + [QueryCore.Select(selectColumns.value)];
      }
      if fromTable.Some? {
        full := full + [QueryCore.From(fromTable.value)];
      }
      full := full + components;
      assert full == QueryCore.FullComponents(View());
      r := QueryCore.BuildQuery(strategy, full);
    }
  }

  /** What `MockExecutionStrategy.execute` returns: a status and the
      statement text. */
  datatype MockResult = MockResult(status: string, query: string)

  /** `MockExecutionStrategy.execute(query)`: the statement's text paired
      with the status "success"; a validation failure propagates and no
      result is produced. */
  method MockExecute(query: SQLQuery) returns (r: Result<MockResult, QueryCore.QueryError>)
    ensures r.Ok? <==> ExecuteText(query.View()).Ok?
    ensures r.Ok? ==> r.value == MockResult("success", ExecuteText(query.View()).value)
    ensures r.Err? ==> r.error == ExecuteText(query.View()).error
  {
    var text := query.Execute();
    if text.Err? {
      return Err(text.error);
    }
    r := Ok(MockResult("success", text.value));
  }

  // ---------------------------------------------------------------------
  // The UPDATE and DELETE examples at the end of querykit.py.

  lemma UpdateText()
    ensures ExecuteText(QueryCore.Query(None, None,
              [QueryCore.Update("users"), QueryCore.SetClause(["name = 'John'", "age = 25"]), QueryCore.Where("id = 1")],
              QueryCore.StandardStrategy))
         == Ok("UPDATE users SET name = 'John', age = 25 WHERE id = 1")
  {
    var update, assign, where := QueryCore.Update("users"), QueryCore.SetClause(["name = 'John'", "age = 25"]), QueryCore.Where("id = 1");
    var cs := [update, assign, where];
    var q := QueryCore.Query(None, None, cs, QueryCore.StandardStrategy);
    assert cs[0].Update? && cs[1].SetClause?;
    assert ValidateRules(q) == Pass;
    assert QueryCore.FullComponents(q) == [update] + ([assign] + [where]);
    StrategyFacts.BuildPrepend(update, [assign] + [where]);
    StrategyFacts.BuildPrepend(assign, [where]);
    StrategyFacts.BuildSingle(where);
    UpdateLiteral();
  }

  lemma UpdateLiteral()
    ensures "UPDATE " + "users" + " " + ("SET " + Text.Join(", ", ["name = 'John'", "age = 25"]) + " " + ("WHERE " + "id = 1"))
         == "UPDATE users SET name = 'John', age = 25 WHERE id = 1"
  {
    SetText();
    assert "UPDATE " + "users" == "UPDATE users";
    assert "WHERE " + "id = 1" == "WHERE id = 1";
    SetWhereText();
    UpdateTail();
  }

  lemma SetText()
    ensures "SET " + Text.Join(", ", ["name = 'John'", "age = 25"]) == "SET name = 'John', age = 25"
  {
    Text.JoinPair(", ", "name = 'John'", "age = 25");
    assert "SET " + ("name = 'John'" + ", " + "age = 25") == "SET name = 'John', age = 25";
  }

  lemma SetWhereText()
    ensures "SET name = 'John', age = 25" + " " + "WHERE id = 1" == "SET name = 'John', age = 25 WHERE id = 1"
  {
    assert "SET name = 'John', age = 25" + " " == "SET name = 'John', age = 25 ";
  }

  lemma UpdateTail()
    ensures "UPDATE users" + " " + "SET name = 'John', age = 25 WHERE id = 1"
         == "UPDATE users SET name = 'John', age = 25 WHERE id = 1"
  {
    assert "UPDATE users" + " " == "UPDATE users ";
    UpdateTailJoined();
  }

  lemma UpdateTailJoined()
    ensures "UPDATE users " + "SET name = 'John', age = 25 WHERE id = 1"
         == "UPDATE users SET name = 'John', age = 25 WHERE id = 1"
  {
  }

  lemma DeleteText()
    ensures ExecuteText(QueryCore.Query(None, None, [QueryCore.Delete("users"), QueryCore.Where("age < 18")], QueryCore.StandardStrategy))
         == Ok("DELETE FROM users WHERE age < 18")
  {
    var delete, where := QueryCore.Delete("users"), QueryCore.Where("age < 18");
    var q := QueryCore.Query(None, None, [delete, where], QueryCore.StandardStrategy);
    assert [delete, where][1].Where? && [delete, where][0].Delete?;
    assert ValidateRules(q) == Pass;
    assert QueryCore.FullComponents(q) == [delete, where];
    DeleteBuild();
  }

  lemma DeleteBuild()
    ensures QueryCore.BuildQuery(QueryCore.StandardStrategy, [QueryCore.Delete("users"), QueryCore.Where("age < 18")])
         == Ok("DELETE FROM users WHERE age < 18")
  {
    var delete, where := QueryCore.Delete("users"), QueryCore.Where("age < 18");
    assert [delete, where] == [delete] + [where];
    StrategyFacts.BuildPrepend(delete, [where]);
    StrategyFacts.BuildSingle(where);
    assert "DELETE FROM " + "users" == "DELETE FROM users";
    assert "WHERE " + "age < 18" == "WHERE age < 18";
    assert "DELETE FROM users" + " " + "WHERE age < 18" == "DELETE FROM users WHERE age < 18";
  }

  /** Update users, Set two assignments, Where: the UPDATE rule is met and
      the clauses render in append order. */
  method UpdateScenario() returns (r: Result<string, QueryCore.QueryError>)
    ensures r == Ok("UPDATE users SET name = 'John', age = 25 WHERE id = 1")
  {
    var q := new SQLQuery(QueryCore.StandardStrategy);
    q.AddComponent(QueryCore.Update("users"));
    q.AddComponent(QueryCore.SetClause(["name = 'John'", "age = 25"]));
    q.AddComponent(QueryCore.Where("id = 1"));
    r := q.Execute();
    assert q.View() == QueryCore.Query(None, None,
      [QueryCore.Update("users"), QueryCore.SetClause(["name = 'John'", "age = 25"]), QueryCore.Where("id = 1")],
      QueryCore.StandardStrategy);
    UpdateText();
  }

  /** Delete users, Where: a DELETE without a FROM slot passes validation,
      and the mock execution strategy reports it as a success. */
  method DeleteScenario() returns (r: Result<MockResult, QueryCore.QueryError>)
    ensures r == Ok(MockResult("success", "DELETE FROM users WHERE age < 18"))
  {
    var q := new SQLQuery(QueryCore.StandardStrategy);
    q.AddComponent(QueryCore.Delete("users"));
    q.AddComponent(QueryCore.Where("age < 18"));
    assert q.View() == QueryCore.Query(None, None, [QueryCore.Delete("users"), QueryCore.Where("age < 18")], QueryCore.StandardStrategy);
    DeleteText();
    r := MockExecute(q);
  }
}
