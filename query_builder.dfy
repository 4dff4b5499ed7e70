/** The fluent `QueryBuilder` of querykit/core/query_builder.py: every step
    makes one change to the wrapped `SQLQuery` and hands back the same
    builder; `build` hands back the wrapped statement itself. */
module Builder {
  import opened Wrappers
  import Text
  import QueryCore
  import StatementFacts
  import StrategyFacts
  import opened SqlQuery

  class QueryBuilder {
    const query: SQLQuery

    constructor(strategy: QueryCore.Strategy)
      ensures fresh(query)
      ensures query.View() == QueryCore.EmptyQuery(strategy)
    {
      query := new SQLQuery(strategy);
    }

    /** Sets the SELECT slot rather than appending. */
    method Select(columns: seq<string>) returns (b: QueryBuilder)
      modifies query
      ensures b == this
      ensures query.View() == old(query.View()).(selectColumns := Some(columns))
    {
      query.SetSelect(columns);
      b := this;
    }

    /** Sets the FROM slot rather than appending. */
    method FromTable(table: string) returns (b: QueryBuilder)
      modifies query
      ensures b == this
      ensures query.View() == old(query.View()).(fromTable := Some(table))
    {
      query.SetFrom(table);
      b := this;
    }

    method Where(condition: string) returns (b: QueryBuilder)
      modifies query
      ensures b == this
      ensures query.View() == old(query.View()).(components := old(query.components) + [QueryCore.Where(condition)])
    {
      query.AddComponent(QueryCore.Where(condition));
      b := this;
    }

    method GroupBy(columns: seq<string>) returns (b: QueryBuilder)
      modifies query
      ensures b == this
      ensures query.View() == old(query.View()).(components := old(query.components) + [QueryCore.GroupBy(columns)])
    {
      query.AddComponent(QueryCore.GroupBy(columns));
      b := this;
    }

    /** The direction defaults to ascending. */
    method OrderBy(columns: seq<string>, order: string := "ASC") returns (b: QueryBuilder)
      modifies query
      ensures b == this
      ensures query.View() == old(query.View()).(components := old(query.components) + [QueryCore.OrderBy(columns, Some(order))])
    {
      query.AddComponent(QueryCore.OrderBy(columns, Some(order)));
      b := this;
    }

    method Join(table: string, condition: string) returns (b: QueryBuilder)
      modifies query
      ensures b == this
      ensures query.View() == old(query.View()).(components := old(query.components) + [QueryCore.Join(table, condition)])
    {
      query.AddComponent(QueryCore.Join(table, condition));
      b := this;
    }

    method Delete(table: string) returns (b: QueryBuilder)
      modifies query
      ensures b == this
      ensures query.View() == old(query.View()).(components := old(query.components) + [QueryCore.Delete(table)])
    {
      query.AddComponent(QueryCore.Delete(table));
      b := this;
    }

    /** The wrapped statement itself, not a copy. */
    method Build() returns (q: SQLQuery)
      ensures q == query
    {
      q := query;
    }
  }

  /** `build` does not copy: a step taken after `build` shows in the
      statement it returned. */
  method BuildReturnsLiveStatement(condition: string) returns (components: seq<QueryCore.Component>)
    ensures components == [QueryCore.Where(condition)]
  {
    var builder := new QueryBuilder(QueryCore.StandardStrategy);
    var q := builder.Build();
    var same := builder.Where(condition);
    components := q.components;
  }

  /** Calling `order_by` without a direction is the same as asking for
      ascending order. */
  method OrderByDefaultsToAscending(columns: seq<string>) returns (c: QueryCore.Component)
    ensures c == QueryCore.OrderBy(columns, Some("ASC"))
  {
    var builder := new QueryBuilder(QueryCore.StandardStrategy);
    var same := builder.OrderBy(columns);
    c := builder.query.components[0];
  }

  // ---------------------------------------------------------------------
  // The builder scenarios of tests/test_query_builder.py, with the whole
  // statement text rather than the substring the tests look for. Each text
  // is first worked out on the statement value, then the builder is shown
  // to produce that value.

  /** A SELECT … FROM … statement followed by one clause that is subject to
      no rule and holds no subquery. */
  lemma SelectFromThen(columns: seq<string>, table: string, c: QueryCore.Component)
    requires c.Where? || c.GroupBy? || c.OrderBy? || c.Join?
    ensures QueryCore.Parse(QueryCore.Query(Some(columns), Some(table), [c], QueryCore.StandardStrategy))
         == Ok("SELECT " + Text.Join(", ", columns) + " FROM " + table + " " + QueryCore.ToSql(c).value)
  {
    var q := QueryCore.Query(Some(columns), Some(table), [c], QueryCore.StandardStrategy);
    assert [c][0] == c && [c][1..] == [];
    assert !QueryCore.HasUpdate([c]) && !QueryCore.HasDelete([c]);
    assert QueryCore.ValidateSubqueries([c]) == QueryCore.ValidateSubqueries([]);
    StatementFacts.ParseLayout(q);
    StrategyFacts.BuildSingle(c);
  }

  lemma NameAge()
    ensures "SELECT " + Text.Join(", ", ["name", "age"]) + " FROM " + "users" == "SELECT name, age FROM users"
  {
    Text.JoinPair(", ", "name", "age");
    assert "name" + ", " + "age" == "name, age";
    assert "SELECT " + "name, age" + " FROM " + "users" == "SELECT name, age FROM users";
  }

  lemma FromTableText()
    ensures QueryCore.Parse(QueryCore.Query(Some(["name", "age"]), Some("users"), [], QueryCore.StandardStrategy))
         == Ok("SELECT name, age FROM users")
  {
    StatementFacts.ParseLayout(QueryCore.Query(Some(["name", "age"]), Some("users"), [], QueryCore.StandardStrategy));
    NameAge();
  }

  lemma WhereText()
    ensures QueryCore.Parse(QueryCore.Query(Some(["name", "age"]), Some("users"), [QueryCore.Where("age > 30")], QueryCore.StandardStrategy))
         == Ok("SELECT name, age FROM users WHERE age > 30")
  {
    SelectFromThen(["name", "age"], "users", QueryCore.Where("age > 30"));
    NameAge();
    assert "WHERE " + "age > 30" == "WHERE age > 30";
    assert "SELECT name, age FROM users" + " " == "SELECT name, age FROM users ";
    WhereTail();
  }

  lemma WhereTail()
    ensures "SELECT name, age FROM users " + "WHERE age > 30" == "SELECT name, age FROM users WHERE age > 30"
  {
    assert "SELECT name, age FROM users " + "WHERE age > 30" == "SELECT name, age FROM users " + "WHERE age > 30";
  }

  lemma GroupByText()
    ensures QueryCore.Parse(QueryCore.Query(Some(["name", "age"]), Some("users"), [QueryCore.GroupBy(["age"])], QueryCore.StandardStrategy))
         == Ok("SELECT name, age FROM users GROUP BY age")
  {
    SelectFromThen(["name", "age"], "users", QueryCore.GroupBy(["age"]));
    NameAge();
    assert "GROUP BY " + "age" == "GROUP BY age";
    assert "SELECT name, age FROM users" + " " == "SELECT name, age FROM users ";
    assert "SELECT name, age FROM users " + "GROUP BY age" == "SELECT name, age FROM users GROUP BY age";
  }

  lemma OrderByText()
    ensures QueryCore.Parse(QueryCore.Query(Some(["name", "age"]), Some("users"), [QueryCore.OrderBy(["age"], Some("DESC"))], QueryCore.StandardStrategy))
         == Ok("SELECT name, age FROM users ORDER BY age DESC")
  {
    SelectFromThen(["name", "age"], "users", QueryCore.OrderBy(["age"], Some("DESC")));
    NameAge();
    OrderByClause();
    assert "SELECT name, age FROM users" + " " == "SELECT name, age FROM users ";
    assert "SELECT name, age FROM users " + "ORDER BY age DESC" == "SELECT name, age FROM users ORDER BY age DESC";
  }

  lemma OrderByClause()
    ensures QueryCore.ToSql(QueryCore.OrderBy(["age"], Some("DESC"))) == Ok("ORDER BY age DESC")
  {
    assert "ORDER BY " + "age" + " " + "DESC" == "ORDER BY age DESC";
  }

  lemma JoinText()
    ensures QueryCore.Parse(QueryCore.Query(Some(["users.name", "orders.id"]), Some("users"),
                                            [QueryCore.Join("orders", "users.id = orders.user_id")], QueryCore.StandardStrategy))
         == Ok("SELECT users.name, orders.id FROM users JOIN orders ON users.id = orders.user_id")
  {
    SelectFromThen(["users.name", "orders.id"], "users", QueryCore.Join("orders", "users.id = orders.user_id"));
    Text.JoinPair(", ", "users.name", "orders.id");
    assert "users.name" + ", " + "orders.id" == "users.name, orders.id";
    JoinTextHead();
    JoinTextTail();
  }

  lemma JoinTextHead()
    ensures "SELECT " + "users.name, orders.id" + " FROM " + "users" + " " == "SELECT users.name, orders.id FROM users "
    ensures "JOIN " + "orders" + " ON " + "users.id = orders.user_id" == "JOIN orders ON users.id = orders.user_id"
  {
    assert "SELECT " + "users.name, orders.id" == "SELECT users.name, orders.id";
    assert "SELECT users.name, orders.id" + " FROM " + "users" + " " == "SELECT users.name, orders.id FROM users ";
    assert "JOIN " + "orders" + " ON " == "JOIN orders ON ";
  }

  lemma JoinTextTail()
    ensures "SELECT users.name, orders.id FROM users " + "JOIN orders ON users.id = orders.user_id"
         == "SELECT users.name, orders.id FROM users JOIN orders ON users.id = orders.user_id"
  {
  }

  lemma DeleteText()
    ensures QueryCore.Parse(QueryCore.Query(None, None, [QueryCore.Delete("users")], QueryCore.StandardStrategy))
         == Ok("DELETE FROM users")
  {
    var q := QueryCore.Query(None, None, [QueryCore.Delete("users")], QueryCore.StandardStrategy);
    assert [QueryCore.Delete("users")][0].Delete? && [QueryCore.Delete("users")][1..] == [];
    assert QueryCore.Validate(q).Pass?;
    assert QueryCore.FullComponents(q) == [QueryCore.Delete("users")];
    StrategyFacts.BuildSingle(QueryCore.Delete("users"));
    assert "DELETE FROM " + "users" == "DELETE FROM users";
  }

  lemma InnerText()
    ensures QueryCore.Parse(QueryCore.Query(Some(["*"]), Some("users"), [QueryCore.Where("age > 30")], QueryCore.StandardStrategy))
         == Ok("SELECT * FROM users WHERE age > 30")
  {
    StatementFacts.SelectFromWhere("*", "users", "age > 30");
    assert "SELECT " + "*" + " FROM " + "users" == "SELECT * FROM users";
    assert "SELECT * FROM users" + " WHERE " + "age > 30" == "SELECT * FROM users WHERE age > 30";
  }

  lemma DerivedTableText(inner: string)
    ensures QueryCore.Parse(QueryCore.Query(Some(["name", "age"]), Some("(" + inner + ") AS sub_alias"), [], QueryCore.StandardStrategy))
         == Ok("SELECT name, age FROM (" + inner + ") AS sub_alias")
  {
    StatementFacts.ParseLayout(QueryCore.Query(Some(["name", "age"]), Some("(" + inner + ") AS sub_alias"), [], QueryCore.StandardStrategy));
    Text.JoinPair(", ", "name", "age");
    assert "name" + ", " + "age" == "name, age";
    var head := "SELECT " + Text.Join(", ", ["name", "age"]) + " FROM ";
    assert head + "(" == "SELECT name, age FROM (" by {
      assert "SELECT " + "name, age" + " FROM " + "(" == "SELECT name, age FROM (";
    }
    assert head + ("(" + inner + ") AS sub_alias") == (head + "(") + inner + ") AS sub_alias";
  }

  /** select(['name', 'age']).from_table('users'). */
  method FromTableScenario() returns (r: Result<string, QueryCore.QueryError>)
    ensures r == Ok("SELECT name, age FROM users")
  {
    var builder := new QueryBuilder(QueryCore.StandardStrategy);
    builder := builder.Select(["name", "age"]);
    builder := builder.FromTable("users");
    var q := builder.Build();
    r := q.Parse();
    assert q.View() == QueryCore.Query(Some(["name", "age"]), Some("users"), [], QueryCore.StandardStrategy);
    FromTableText();
  }

  /** select(['name', 'age']).from_table('users').where('age > 30'). */
  method WhereScenario() returns (r: Result<string, QueryCore.QueryError>)
    ensures r == Ok("SELECT name, age FROM users WHERE age > 30")
  {
    var builder := new QueryBuilder(QueryCore.StandardStrategy);
    builder := builder.Select(["name", "age"]);
    builder := builder.FromTable("users");
    builder := builder.Where("age > 30");
    var q := builder.Build();
    r := q.Parse();
    assert q.View() == QueryCore.Query(Some(["name", "age"]), Some("users"), [QueryCore.Where("age > 30")], QueryCore.StandardStrategy);
    WhereText();
  }

  /** select(['name', 'age']).from_table('users').group_by(['age']). */
  method GroupByScenario() returns (r: Result<string, QueryCore.QueryError>)
    ensures r == Ok("SELECT name, age FROM users GROUP BY age")
  {
    var builder := new QueryBuilder(QueryCore.StandardStrategy);
    builder := builder.Select(["name", "age"]);
    builder := builder.FromTable("users");
    builder := builder.GroupBy(["age"]);
    var q := builder.Build();
    r := q.Parse();
    assert q.View() == QueryCore.Query(Some(["name", "age"]), Some("users"), [QueryCore.GroupBy(["age"])], QueryCore.StandardStrategy);
    GroupByText();
  }

  /** select(['name', 'age']).from_table('users').order_by(['age'], 'DESC'). */
  method OrderByScenario() returns (r: Result<string, QueryCore.QueryError>)
    ensures r == Ok("SELECT name, age FROM users ORDER BY age DESC")
  {
    var builder := new QueryBuilder(QueryCore.StandardStrategy);
    builder := builder.Select(["name", "age"]);
    builder := builder.FromTable("users");
    builder := builder.OrderBy(["age"], "DESC");
    var q := builder.Build();
    r := q.Parse();
    assert q.View() == QueryCore.Query(Some(["name", "age"]), Some("users"), [QueryCore.OrderBy(["age"], Some("DESC"))], QueryCore.StandardStrategy);
    OrderByText();
  }

  /** select(['users.name', 'orders.id']).from_table('users')
      .join('orders', 'users.id = orders.user_id'). */
  method JoinScenario() returns (r: Result<string, QueryCore.QueryError>)
    ensures r == Ok("SELECT users.name, orders.id FROM users JOIN orders ON users.id = orders.user_id")
  {
    var builder := new QueryBuilder(QueryCore.StandardStrategy);
    builder := builder.Select(["users.name", "orders.id"]);
    builder := builder.FromTable("users");
    builder := builder.Join("orders", "users.id = orders.user_id");
    var q := builder.Build();
    r := q.Parse();
    assert q.View() == QueryCore.Query(Some(["users.name", "orders.id"]), Some("users"), [QueryCore.Join("orders", "users.id = orders.user_id")], QueryCore.StandardStrategy);
    JoinText();
  }

  /** delete('users') alone: a DELETE with no FROM slot passes validation. */
  method DeleteScenario() returns (r: Result<string, QueryCore.QueryError>)
    ensures r == Ok("DELETE FROM users")
  {
    var builder := new QueryBuilder(QueryCore.StandardStrategy);
    builder := builder.Delete("users");
    var q := builder.Build();
    r := q.Parse();
    assert q.View() == QueryCore.Query(None, None, [QueryCore.Delete("users")], QueryCore.StandardStrategy);
    DeleteText();
  }

  /** A statement used as a derived table: the FROM slot is set to the
      inner statement's text in parentheses followed by an alias. */
  method DerivedTableScenario() returns (inner: Result<string, QueryCore.QueryError>, r: Result<string, QueryCore.QueryError>)
    ensures inner == Ok("SELECT * FROM users WHERE age > 30")
    ensures r == Ok("SELECT name, age FROM (" + inner.value + ") AS sub_alias")
  {
    var sub := new SQLQuery(QueryCore.StandardStrategy);
    sub.SetSelect(["*"]);
    sub.SetFrom("users");
    sub.AddComponent(QueryCore.Where("age > 30"));
    assert sub.View() == QueryCore.Query(Some(["*"]), Some("users"), [QueryCore.Where("age > 30")], QueryCore.StandardStrategy);
    inner := sub.Parse();
    InnerText();
    var builder := new QueryBuilder(QueryCore.StandardStrategy);
    builder := builder.Select(["name", "age"]);
    builder := builder.FromTable("(" + inner.value + ") AS sub_alias");
    var q := builder.Build();
    r := q.Parse();
    assert q.View() == QueryCore.Query(Some(["name", "age"]), Some("(" + inner.value + ") AS sub_alias"), [], QueryCore.StandardStrategy);
    DerivedTableText(inner.value);
  }
}
