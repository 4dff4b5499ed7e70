/** What `SQLQuery.validate`, `SQLQuery.parse` and `Subquery.to_sql` of
    querykit/core/sql_query.py promise about a statement snapshot. */
module StatementFacts {
  import Text
  import opened Wrappers
  import opened QueryCore
  import StrategyFacts

  /** The three structural rules of a statement, without its subqueries:
      SELECT needs FROM, UPDATE needs SET, DELETE forbids FROM. */
  ghost predicate RulesHold(q: Query)
  {
    && !(q.selectColumns.Some? && q.fromTable.None?)
    && !(HasUpdate(q.components) && !HasSet(q.components))
    && !(HasDelete(q.components) && q.fromTable.Some?)
  }

  /** A statement is well formed when it keeps the rules and so does every
      statement embedded in it as a Subquery, at any depth. */
  ghost predicate WellFormed(q: Query)
  {
    RulesHold(q)
    && forall i :: 0 <= i < |q.components| && q.components[i].Subquery? ==> WellFormed(q.components[i].query)
  }

  lemma {:induction false} MaxHeightBound(cs: seq<Component>, j: nat)
    requires j < |cs|
    ensures ComponentHeight(cs[j]) <= MaxHeight(cs)
  {
    if j > 0 {
      assert cs[j] == cs[1..][j - 1];
      MaxHeightBound(cs[1..], j - 1);
    }
  }

  /** `validate` passes exactly on well-formed statements. */
  lemma {:induction false} ValidateIffWellFormed(q: Query)
    decreases QueryHeight(q), 1, 0
    ensures Validate(q).Pass? <==> WellFormed(q)
  {
    if RulesHold(q) {
      SubqueriesValidIff(q.components);
    }
  }

  lemma {:induction false} SubqueriesValidIff(cs: seq<Component>)
    decreases MaxHeight(cs), 0, |cs|
    ensures ValidateSubqueries(cs).Pass? <==>
      forall i :: 0 <= i < |cs| && cs[i].Subquery? ==> WellFormed(cs[i].query)
  {
    if |cs| > 0 {
      if cs[0].Subquery? {
        assert ComponentHeight(cs[0]) == 1 + QueryHeight(cs[0].query);
        ValidateIffWellFormed(cs[0].query);
      }
      SubqueriesValidIff(cs[1..]);
      assert forall i :: 1 <= i < |cs| ==> cs[i] == cs[1..][i - 1];
    }
  }

  /** Which rule a validation message reports, and whether `q` itself
      breaks it. */
  ghost predicate BreaksRule(q: Query, message: string)
  {
    || (message == SelectNeedsFrom && q.selectColumns.Some? && q.fromTable.None?)
    || (message == UpdateNeedsSet && HasUpdate(q.components) && !HasSet(q.components))
    || (message == DeleteForbidsFrom && HasDelete(q.components) && q.fromTable.Some?)
  }

  /** The rule is broken by `q` or by a statement nested in it. */
  ghost predicate BrokenWithin(q: Query, message: string)
  {
    BreaksRule(q, message)
    || exists i :: 0 <= i < |q.components| && q.components[i].Subquery? && BrokenWithin(q.components[i].query, message)
  }

  /** A validation failure is always a ValueError whose message names a rule
      that the statement, or a statement nested in it, really breaks. */
  lemma {:induction false} ValidationErrorIsTruthful(q: Query)
    decreases QueryHeight(q), 1, 0
    ensures Validate(q).Fail? ==>
      Validate(q).error.ValueError? && BrokenWithin(q, Validate(q).error.message)
  {
    if RulesHold(q) {
      SubqueryErrorIsTruthful(q.components);
    }
  }

  lemma {:induction false} SubqueryErrorIsTruthful(cs: seq<Component>)
    decreases MaxHeight(cs), 0, |cs|
    ensures ValidateSubqueries(cs).Fail? ==>
      && ValidateSubqueries(cs).error.ValueError?
      && exists i :: 0 <= i < |cs| && cs[i].Subquery? && BrokenWithin(cs[i].query, ValidateSubqueries(cs).error.message)
  {
    if |cs| > 0 {
      if cs[0].Subquery? {
        assert ComponentHeight(cs[0]) == 1 + QueryHeight(cs[0].query);
        ValidationErrorIsTruthful(cs[0].query);
      }
      if !(cs[0].Subquery? && Validate(cs[0].query).Fail?) {
        SubqueryErrorIsTruthful(cs[1..]);
        if ValidateSubqueries(cs[1..]).Fail? {
          var j :| 0 <= j < |cs[1..]| && cs[1..][j].Subquery?
                   && BrokenWithin(cs[1..][j].query, ValidateSubqueries(cs).error.message);
          assert cs[j + 1] == cs[1..][j];
        }
      }
    }
  }

  /** The rules are checked in a fixed order, each before any subquery: the
      SELECT rule first, then the UPDATE rule, then the DELETE rule. */
  lemma RulePrecedence(q: Query)
    ensures q.selectColumns.Some? && q.fromTable.None? ==>
      Validate(q) == Fail(ValueError("SELECT query requires a FROM clause."))
    ensures q.fromTable.Some? && HasUpdate(q.components) && !HasSet(q.components) ==>
      Validate(q) == Fail(ValueError("UPDATE query requires a SET clause."))
    ensures q.selectColumns.None? && HasUpdate(q.components) && !HasSet(q.components) ==>
      Validate(q) == Fail(ValueError("UPDATE query requires a SET clause."))
    ensures !(HasUpdate(q.components) && !HasSet(q.components)) && HasDelete(q.components) && q.fromTable.Some? ==>
      Validate(q) == Fail(ValueError("DELETE query should not have a FROM clause explicitly."))
  {
  }

  lemma SameElements(xs: seq<Component>, ys: seq<Component>)
    requires multiset(xs) == multiset(ys)
    ensures forall x :: x in xs <==> x in ys
  {
    forall x
      ensures x in xs <==> x in ys
    {
      assert x in xs <==> x in multiset(xs);
      assert x in ys <==> x in multiset(ys);
    }
  }

  /** Only which components are present matters to validation, not their
      positions: reordering the appended components never changes whether a
      statement is valid. */
  lemma ValidationIgnoresOrder(q: Query, reordered: seq<Component>)
    requires multiset(reordered) == multiset(q.components)
    ensures Validate(q).Pass? <==> Validate(q.(components := reordered)).Pass?
  {
    var cs, q' := q.components, q.(components := reordered);
    SameElements(cs, reordered);
    assert HasUpdate(cs) <==> HasUpdate(reordered) by {
      if HasUpdate(cs) {
        var i :| 0 <= i < |cs| && cs[i].Update?;
        assert cs[i] in reordered;
      }
      if HasUpdate(reordered) {
        var i :| 0 <= i < |reordered| && reordered[i].Update?;
        assert reordered[i] in cs;
      }
    }
    assert HasSet(cs) <==> HasSet(reordered) by {
      if HasSet(cs) {
        var i :| 0 <= i < |cs| && cs[i].SetClause?;
        assert cs[i] in reordered;
      }
      if HasSet(reordered) {
        var i :| 0 <= i < |reordered| && reordered[i].SetClause?;
        assert reordered[i] in cs;
      }
    }
    assert HasDelete(cs) <==> HasDelete(reordered) by {
      if HasDelete(cs) {
        var i :| 0 <= i < |cs| && cs[i].Delete?;
        assert cs[i] in reordered;
      }
      if HasDelete(reordered) {
        var i :| 0 <= i < |reordered| && reordered[i].Delete?;
        assert reordered[i] in cs;
      }
    }
    assert WellFormed(q) <==> WellFormed(q') by {
      if WellFormed(q) {
        forall j | 0 <= j < |reordered| && reordered[j].Subquery?
          ensures WellFormed(reordered[j].query)
        {
          assert reordered[j] in cs;
        }
      }
      if WellFormed(q') {
        forall j | 0 <= j < |cs| && cs[j].Subquery?
          ensures WellFormed(cs[j].query)
        {
          assert cs[j] in reordered;
        }
      }
    }
    ValidateIffWellFormed(q);
    ValidateIffWellFormed(q');
  }

  /** `parse` validates first: an invalid statement yields its validation
      error and never a text. */
  lemma ParseRejectsInvalid(q: Query)
    ensures Validate(q).Fail? ==> Parse(q) == Err(Validate(q).error)
    ensures Parse(q).Ok? ==> WellFormed(q)
  {
    ValidateIffWellFormed(q);
  }

  /** The statement and everything nested in it use the standard strategy. */
  ghost predicate AllStandard(q: Query)
  {
    q.strategy.StandardStrategy?
    && forall i :: 0 <= i < |q.components| && q.components[i].Subquery? ==> AllStandard(q.components[i].query)
  }

  /** With the standard strategy throughout, `parse` returns a text exactly
      when the statement is well formed: validating the outer statement is
      what guarantees that every nested `Subquery.to_sql` succeeds. */
  lemma ParseSucceedsIffWellFormed(q: Query)
    requires AllStandard(q)
    ensures Parse(q).Ok? <==> WellFormed(q)
  {
    ParseRejectsInvalid(q);
    if WellFormed(q) {
      ParseTotal(q);
    }
  }

  lemma {:induction false} ParseTotal(q: Query)
    requires AllStandard(q) && WellFormed(q)
    decreases QueryHeight(q)
    ensures Parse(q).Ok?
  {
    ValidateIffWellFormed(q);
    var full := FullComponents(q);
    var offset := |full| - |q.components|;
    FullComponentsEndWithComponents(q);
    forall i | 0 <= i < |full|
      ensures ToSql(full[i]).Ok?
    {
      if full[i].Subquery? {
        assert i >= offset;
        assert full[i] == full[offset..][i - offset] == q.components[i - offset];
        MaxHeightBound(q.components, i - offset);
        ParseTotal(full[i].query);
      }
    }
    StrategyFacts.RenderAllInOrder(full);
  }

  /** A fresh statement parses to the empty string with the standard
      strategy, and raises with the abstract one. */
  lemma FreshStatementParse()
    ensures Parse(EmptyQuery(StandardStrategy)) == Ok("")
    ensures Parse(EmptyQuery(AbstractStrategy)) == Err(NotImplementedError("Must be implemented in subclasses"))
  {
    assert FullComponents(EmptyQuery(StandardStrategy)) == [];
  }

  /** Clause order of a SELECT statement: the SELECT text, then the FROM
      text, then the appended components, whatever order the slots were
      filled in. */
  lemma ParseLayout(q: Query)
    requires q.strategy.StandardStrategy? && Validate(q).Pass?
    requires q.selectColumns.Some? && q.fromTable.Some?
    ensures q.components == [] ==>
      Parse(q) == Ok("SELECT " + Text.Join(", ", q.selectColumns.value) + " FROM " + q.fromTable.value)
    ensures q.components != [] ==>
      Parse(q) ==
        match BuildQuery(StandardStrategy, q.components)
        case Err(e) => Err(e)
        case Ok(rest) => Ok("SELECT " + Text.Join(", ", q.selectColumns.value) + " FROM " + q.fromTable.value + " " + rest)
  {
    var sel, from := Select(q.selectColumns.value), From(q.fromTable.value);
    var head := "SELECT " + Text.Join(", ", q.selectColumns.value);
    var fromText := "FROM " + q.fromTable.value;
    assert FullComponents(q) == [sel] + ([from] + q.components);
    StrategyFacts.BuildPrepend(sel, [from] + q.components);
    if q.components == [] {
      assert [from] + q.components == [from];
      StrategyFacts.BuildSingle(from);
      assert head + " " + fromText == "SELECT " + Text.Join(", ", q.selectColumns.value) + " FROM " + q.fromTable.value;
    } else {
      StrategyFacts.BuildPrepend(from, q.components);
      match BuildQuery(StandardStrategy, q.components)
      case Err(e) =>
      case Ok(rest) =>
        assert head + " " + (fromText + " " + rest)
            == "SELECT " + Text.Join(", ", q.selectColumns.value) + " FROM " + q.fromTable.value + " " + rest;
    }
  }

  lemma {:induction false} ValidateSubqueriesAppend(cs: seq<Component>, c: Component)
    ensures ValidateSubqueries(cs + [c]) ==
      match ValidateSubqueries(cs)
      case Fail(e) => Fail(e)
      case Pass => if c.Subquery? then Validate(c.query) else Pass
  {
    if |cs| == 0 {
      assert cs + [c] == [c] && [c][1..] == [];
    } else {
      assert (cs + [c])[0] == cs[0] && (cs + [c])[1..] == cs[1..] + [c];
      ValidateSubqueriesAppend(cs[1..], c);
    }
  }

  /** `add_component` as seen by `parse`: appending a clause other than
      UPDATE or DELETE to a statement that parses adds one space and
      the clause's text at the end (just the text if the statement was
      empty), and a failing Subquery makes the whole statement fail with
      the inner statement's error. */
  lemma ParseAppend(q: Query, c: Component)
    requires q.strategy.StandardStrategy? && Parse(q).Ok?
    requires !c.Update? && !c.Delete?
    ensures Parse(q.(components := q.components + [c])) ==
      match ToSql(c)
      case Err(e) => Err(e)
      case Ok(text) => Ok(if FullComponents(q) == [] then text else Parse(q).value + " " + text)
  {
    var q' := q.(components := q.components + [c]);
    ValidateAfterAppend(q, c);
    assert FullComponents(q') == FullComponents(q) + [c];
    if Validate(q').Pass? {
      assert Parse(q') == BuildQuery(StandardStrategy, FullComponents(q) + [c]);
      if FullComponents(q) == [] {
        assert FullComponents(q) + [c] == [c];
        StrategyFacts.BuildSingle(c);
      } else {
        StrategyFacts.BuildAppend(FullComponents(q), c);
      }
    }
  }

  /** Appending a clause other than UPDATE or DELETE to a valid statement
      leaves it valid unless the clause is a Subquery whose statement is
      not. */
  lemma ValidateAfterAppend(q: Query, c: Component)
    requires Validate(q).Pass?
    requires !c.Update? && !c.Delete?
    ensures Validate(q.(components := q.components + [c])) == if c.Subquery? then Validate(c.query) else Pass
  {
    var cs, q' := q.components, q.(components := q.components + [c]);
    var cs' := cs + [c];
    assert HasUpdate(cs') <==> HasUpdate(cs) by {
      if HasUpdate(cs') {
        var i :| 0 <= i < |cs'| && cs'[i].Update?;
        assert i < |cs| && cs'[i] == cs[i];
      }
      if HasUpdate(cs) {
        var i :| 0 <= i < |cs| && cs[i].Update?;
        assert cs'[i] == cs[i];
      }
    }
    assert HasSet(cs) ==> HasSet(cs') by {
      if HasSet(cs) {
        var i :| 0 <= i < |cs| && cs[i].SetClause?;
        assert cs'[i] == cs[i];
      }
    }
    assert HasDelete(cs') <==> HasDelete(cs) by {
      if HasDelete(cs') {
        var i :| 0 <= i < |cs'| && cs'[i].Delete?;
        assert i < |cs| && cs'[i] == cs[i];
      }
      if HasDelete(cs) {
        var i :| 0 <= i < |cs| && cs[i].Delete?;
        assert cs'[i] == cs[i];
      }
    }
    ValidateSubqueriesAppend(cs, c);
  }

  /** A one-column SELECT … FROM statement with nothing appended. */
  lemma SelectFrom(column: string, table: string)
    ensures Parse(Query(Some([column]), Some(table), [], StandardStrategy)) == Ok("SELECT " + column + " FROM " + table)
  {
    var q := Query(Some([column]), Some(table), [], StandardStrategy);
    assert Text.Join(", ", [column]) == column;
    ParseLayout(q);
  }

  /** A one-column SELECT … FROM … WHERE statement. */
  lemma SelectFromWhere(column: string, table: string, condition: string)
    ensures Parse(Query(Some([column]), Some(table), [Where(condition)], StandardStrategy))
         == Ok("SELECT " + column + " FROM " + table + " WHERE " + condition)
  {
    var base := Query(Some([column]), Some(table), [], StandardStrategy);
    var prefix := "SELECT " + column + " FROM " + table;
    SelectFrom(column, table);
    ParseAppend(base, Where(condition));
    assert base.components + [Where(condition)] == [Where(condition)];
    assert prefix + " " + ("WHERE " + condition) == prefix + " WHERE " + condition;
  }

  /** A statement filtering on a subquery: the inner statement's text
      appears in parentheses right after the condition. */
  lemma WhereInSubquery(column: string, table: string, condition: string, inner: Query)
    requires Parse(inner).Ok?
    ensures Parse(Query(Some([column]), Some(table), [Where(condition), Subquery(inner)], StandardStrategy))
         == Ok("SELECT " + column + " FROM " + table + " WHERE " + condition + " (" + Parse(inner).value + ")")
  {
    WhereThenSubquery(column, table, condition, inner);
    SpaceParenthesised("SELECT " + column + " FROM " + table + " WHERE " + condition, Parse(inner).value);
  }

  lemma WhereThenSubquery(column: string, table: string, condition: string, inner: Query)
    requires Parse(inner).Ok?
    ensures Parse(Query(Some([column]), Some(table), [Where(condition), Subquery(inner)], StandardStrategy))
         == Ok("SELECT " + column + " FROM " + table + " WHERE " + condition + " " + ("(" + Parse(inner).value + ")"))
  {
    var filtered := Query(Some([column]), Some(table), [Where(condition)], StandardStrategy);
    SelectFromWhere(column, table, condition);
    assert FullComponents(filtered) != [];
    ParseAppendText(filtered, Subquery(inner), "(" + Parse(inner).value + ")");
    assert filtered.components + [Subquery(inner)] == [Where(condition), Subquery(inner)];
  }

  /** `ParseAppend` for a clause that renders, after a non-empty list. */
  lemma ParseAppendText(q: Query, c: Component, text: string)
    requires q.strategy.StandardStrategy? && Parse(q).Ok? && FullComponents(q) != []
    requires !c.Update? && !c.Delete? && ToSql(c) == Ok(text)
    ensures Parse(q.(components := q.components + [c])) == Ok(Parse(q).value + " " + text)
  {
    ParseAppend(q, c);
  }

  lemma SpaceParenthesised(prefix: string, text: string)
    ensures prefix + " " + ("(" + text + ")") == prefix + " (" + text + ")"
  {
  }

  /** One level of nesting. */
  lemma SingleNesting()
    ensures
      var orders := Query(Some(["id"]), Some("orders"), [], StandardStrategy);
      Parse(Query(Some(["user_id"]), Some("payments"), [Where("id IN"), Subquery(orders)], StandardStrategy))
        == Ok("SELECT user_id FROM payments WHERE id IN (SELECT id FROM orders)")
  {
    var orders := Query(Some(["id"]), Some("orders"), [], StandardStrategy);
    SelectFrom("id", "orders");
    assert "SELECT " + "id" + " FROM " + "orders" == "SELECT id FROM orders";
    WhereInSubquery("user_id", "payments", "id IN", orders);
    SingleNestingText();
  }

  lemma SingleNestingText()
    ensures "SELECT " + "user_id" + " FROM " + "payments" + " WHERE " + "id IN" + " (" + "SELECT id FROM orders" + ")"
         == "SELECT user_id FROM payments WHERE id IN (SELECT id FROM orders)"
  {
    assert "SELECT " + "user_id" == "SELECT user_id";
    assert "SELECT user_id" + " FROM " == "SELECT user_id FROM ";
    assert "SELECT user_id FROM " + "payments" == "SELECT user_id FROM payments";
    assert "SELECT user_id FROM payments" + " WHERE " == "SELECT user_id FROM payments WHERE ";
    assert "SELECT user_id FROM payments WHERE " + "id IN" == "SELECT user_id FROM payments WHERE id IN";
    assert "SELECT user_id FROM payments WHERE id IN" + " (" == "SELECT user_id FROM payments WHERE id IN (";
    assert "SELECT user_id FROM payments WHERE id IN (" + "SELECT id FROM orders"
        == "SELECT user_id FROM payments WHERE id IN (SELECT id FROM orders";
  }

  /** Two levels of nesting: the statement above renders with the one-level
      statement's text in parentheses. */
  lemma NestedSubqueries()
    ensures
      var orders := Query(Some(["id"]), Some("orders"), [], StandardStrategy);
      var payments := Query(Some(["user_id"]), Some("payments"), [Where("id IN"), Subquery(orders)], StandardStrategy);
      var users := Query(Some(["name"]), Some("users"), [Where("id IN"), Subquery(payments)], StandardStrategy);
      && Parse(payments) == Ok("SELECT user_id FROM payments WHERE id IN (SELECT id FROM orders)")
      && Parse(users) == Ok("SELECT name FROM users WHERE id IN (" + Parse(payments).value + ")")
  {
    var orders := Query(Some(["id"]), Some("orders"), [], StandardStrategy);
    var payments := Query(Some(["user_id"]), Some("payments"), [Where("id IN"), Subquery(orders)], StandardStrategy);
    SingleNesting();
    WhereInSubquery("name", "users", "id IN", payments);
    assert "SELECT " + "name" + " FROM " + "users" == "SELECT name FROM users";
    assert "SELECT name FROM users" + " WHERE " + "id IN" + " (" == "SELECT name FROM users WHERE id IN (";
  }

  /** A nested statement that breaks a rule makes the outer statement fail
      with the nested statement's error, although the outer one is valid on
      its own. */
  lemma InvalidSubqueryPropagates()
    ensures
      var broken := Query(Some(["*"]), None, [], StandardStrategy);
      Parse(Query(Some(["name"]), Some("users"), [Subquery(broken)], StandardStrategy))
        == Err(ValueError("SELECT query requires a FROM clause."))
  {
    var broken := Query(Some(["*"]), None, [], StandardStrategy);
    assert Validate(broken) == Fail(ValueError(SelectNeedsFrom));
    assert [Subquery(broken)][1..] == [];
    assert ValidateSubqueries([Subquery(broken)]) == Fail(ValueError(SelectNeedsFrom));
  }
}
