# querykit in Dafny

querykit assembles SQL statement text from clause objects. Each clause
(Select, From, Where, OrderBy, Join, GroupBy, Update, Set, Delete, Limit,
Insert, and a Subquery that embeds a whole statement) renders itself with a
fixed keyword prefix. A render strategy joins the clause texts with single
spaces. The `SQLQuery` statement holds an optional SELECT slot, an optional
FROM slot, an append-only list of further clauses and a strategy. Its
`validate` enforces three rules: SELECT needs FROM, UPDATE needs SET, and
DELETE forbids FROM. It then validates every embedded subquery. `parse`
validates, then renders Select, From and the other clauses in that order. A
fluent `QueryBuilder` wraps a statement. A separate dictionary validator
checks query keys and value types against a schema. The older single-file
library `querykit.py` holds an earlier copy of all of this except the
dictionary validator, and without subqueries.

The project is organised as follows:

- `wrappers.dfy` holds Option, Result and Outcome. Outcome is a pass/fail result for checks that either succeed or raise.
- `text.dfy` holds Python's `sep.join`, `str(int)` together with its inverse, and the `'…'` quoting.
- `query_core.dfy` holds the value layer. The clause datatype `Component` and the statement snapshot `Query` are mutually recursive through `Subquery`, so `ToSql`, `BuildQuery`, `Validate` and `Parse` share one module. Termination uses a nesting-height measure.
- `component_facts.dfy`, `strategy_facts.dfy` and `statement_facts.dfy` hold what the clause renderings, the strategies, and `validate`/`parse` promise.
- `sql_query.dfy` holds the `SQLQuery` class. Its setters update fields in place, and its `Validate` and `Parse` methods are proved equal to the value-level functions applied to `View()`.
- `query_builder.dfy` holds the `QueryBuilder` class and the statements from tests/test_query_builder.py, each with its complete text.
- `query_validation.dfy` holds the dictionary validator.
- `legacy.dfy` holds the `SQLQuery`, `execute` and mock execution of querykit.py, and proves that they agree with the package.

The model follows the code where the written design differs from it:

- An ORDER BY direction may be any string, not only ASC or DESC. An explicit `None` prints as `None`.
- A LIMIT offset of 0 counts as present.

## Model

| member | source | states |
|---|---|---|
| QueryCore.EmptyQuery | querykit/core/sql_query.py:12-16 | a new statement has no SELECT, no FROM, no components, and the given strategy |
| QueryCore.ToSql | querykit/core/query_components.py:23-153 | only a Subquery can fail to render, and it fails exactly when its inner statement's parse fails, with that same error; its partners are the ComponentFacts lemmas below and StatementFacts.WhereInSubquery |
| QueryCore.RenderAll | querykit/core/query_strategy.py:21-22 | one text per clause; its partner StrategyFacts.RenderAllInOrder states that the texts are the clauses' own, in order |
| QueryCore.BuildQuery | querykit/core/query_strategy.py:11-22 | the abstract strategy always raises NotImplementedError; a text is built only by the standard strategy from a list whose clauses all render; partners: the StrategyFacts Build lemmas |
| QueryCore.Validate | querykit/core/sql_query.py:42-58 | a failure is always a ValueError; a passing statement satisfies all three rules; its partner StatementFacts.ValidateIffWellFormed gives the converse |
| QueryCore.ValidateSubqueries | querykit/core/sql_query.py:55-58 | a failure is the failure of one of the embedded statements' own validation, and always a ValueError |
| QueryCore.FullComponents | querykit/core/sql_query.py:66-73 | the list holds Select first when set, From right before the appended components when set, and one entry per appended component |
| QueryCore.FullComponentsEndWithComponents | querykit/core/sql_query.py:71 | the entries after the slots are the appended components themselves, in append order, for every statement |
| QueryCore.Parse | querykit/core/sql_query.py:60-74 | an invalid statement yields exactly its validation error; a text is produced only for a valid statement with the standard strategy |
| ComponentFacts.RenderingOpensWithKeyword | querykit/core/query_components.py:23-153 | every clause except a Subquery renders without failing (for LIMIT, see "## Left out" on very long numbers); every rendering begins with its clause keyword |
| ComponentFacts.ListClauseExamples | querykit/core/query_components.py:23-61 | SELECT of no columns is `SELECT `; columns are `, `-joined in order; ORDER BY defaults to ASC; an explicit None direction prints `None` |
| ComponentFacts.VerbatimClauseInjective | querykit/core/query_components.py:35-122 | FROM, WHERE, UPDATE and DELETE print their argument unchanged after the keyword, so equal texts mean the same clause with the same argument |
| ComponentFacts.JoinInjective | querykit/core/query_components.py:73-74 | `JOIN t ON c` with a space-free table gives back both the table and the condition |
| ComponentFacts.LimitInjective | querykit/core/query_components.py:134-137 | two LIMIT clauses with the same text have the same limit and the same offset; an offset of 0 is distinguished from no offset |
| ComponentFacts.OffsetNotAbsent | querykit/core/query_components.py:134-137 | a LIMIT with an offset, even 0, never renders like one without |
| ComponentFacts.LimitExamples | querykit/core/query_components.py:130-137 | `LIMIT 10`, `LIMIT 10 OFFSET 0`, and `LIMIT -5 OFFSET 20` for a negative limit |
| ComponentFacts.InsertQuotesVerbatim | querykit/core/query_components.py:150-153 | INSERT always renders; each value adds its own length plus two quotes, with no escaping, whatever the number of columns |
| ComponentFacts.InsertExample | querykit/core/query_components.py:150-153 | a value containing a quote is copied unescaped between quotes |
| Text.JoinAppend | querykit/core/query_strategy.py:21-22 | joining one more element adds exactly one separator and the element |
| Text.JoinLength | querykit/core/query_components.py:23-24 | the joined text is the elements' length plus one separator between neighbours |
| Text.IntToString | querykit/core/query_components.py:134-137 | `str(n)` is non-empty, starts with `-` exactly for negative n, and is digits otherwise, with no leading zero except in `0` itself |
| Text.IntRoundTrip | querykit/core/query_components.py:134-137 | the number is read back from its text |
| Text.QuoteAll | querykit/core/query_components.py:152 | one quoted text per value, in order |
| StrategyFacts.RenderAllInOrder | querykit/core/query_strategy.py:21-22 | rendering the list succeeds exactly when every clause renders; the texts are the clauses' own in order; otherwise the first failing clause's error is raised |
| StrategyFacts.RenderAllAppend | querykit/core/query_strategy.py:21-22 | rendering a list with one more clause adds that clause's text at the end, or raises the earliest failure |
| StrategyFacts.BuildEmpty | querykit/core/query_strategy.py:21-22 | an empty list builds to the empty string |
| StrategyFacts.BuildSingle | querykit/core/query_strategy.py:21-22 | a one-clause list builds to exactly that clause's text |
| StrategyFacts.BuildAppend | querykit/core/query_strategy.py:21-22 | append law: `build(xs + [c]) == build(xs) + " " + c.to_sql()` for non-empty xs, with failures propagated |
| StrategyFacts.BuildPrepend | querykit/core/query_strategy.py:21-22 | a clause in front adds its text and one space before the rest |
| StrategyFacts.AbstractStrategyRaises | querykit/core/query_strategy.py:11-12 | the base strategy raises NotImplementedError("Must be implemented in subclasses") for every list |
| StatementFacts.ValidateIffWellFormed | querykit/core/sql_query.py:42-58 | validation passes exactly when the three rules hold for the statement and for every statement nested in it, at any depth |
| StatementFacts.ValidationErrorIsTruthful | querykit/core/sql_query.py:42-58 | a validation failure is a ValueError whose message names a rule that the statement, or a statement nested in it, really breaks |
| StatementFacts.RulePrecedence | querykit/core/sql_query.py:46-53 | the SELECT rule is checked first, then the UPDATE rule, then the DELETE rule, all before any subquery, with their exact messages |
| StatementFacts.ValidationIgnoresOrder | querykit/core/sql_query.py:48-58 | reordering the appended components never changes whether a statement is valid |
| StatementFacts.ParseRejectsInvalid | querykit/core/sql_query.py:60-64 | an invalid statement yields its validation error and never a text |
| StatementFacts.ParseSucceedsIffWellFormed | querykit/core/sql_query.py:60-95 | with the standard strategy throughout, parse returns a text exactly for well-formed statements, so no nested `Subquery.to_sql` fails after validation |
| StatementFacts.FreshStatementParse | querykit/core/sql_query.py:12-74 | a new statement parses to `""` with the standard strategy and raises with the abstract one |
| StatementFacts.ParseLayout | querykit/core/sql_query.py:66-73 | the SELECT text comes first, the FROM text second, then the components, whatever order the slots were set in |
| StatementFacts.ParseAppend | querykit/core/sql_query.py:30-74 | appending a clause other than UPDATE or DELETE to a parsing statement adds one space and the clause's text; a failing subquery makes the whole statement fail with the inner error |
| StatementFacts.SelectFromWhere | querykit/core/sql_query.py:60-74 | `SELECT c FROM t WHERE w` for a one-column statement with one WHERE |
| StatementFacts.WhereInSubquery | querykit/core/sql_query.py:91-95 | a subquery renders as its inner statement's text in parentheses, right after the preceding clause |
| StatementFacts.NestedSubqueries | querykit/core/sql_query.py:91-95 | two levels of nesting give nested parentheses, each around the text of the statement it embeds |
| StatementFacts.InvalidSubqueryPropagates | querykit/core/sql_query.py:55-58 | a nested statement that breaks a rule makes a valid outer statement fail with the nested error |
| SqlQuery.SQLQuery.constructor | querykit/core/sql_query.py:12-16 | a new statement is empty and holds the given strategy |
| SqlQuery.SQLQuery.SetSelect | querykit/core/sql_query.py:18-22 | overwrites the SELECT slot; the FROM slot, the components and the strategy are unchanged |
| SqlQuery.SQLQuery.SetFrom | querykit/core/sql_query.py:24-28 | overwrites the FROM slot and nothing else |
| SqlQuery.SQLQuery.AddComponent | querykit/core/sql_query.py:30-34 | appends at the end; the earlier components, both slots and the strategy are unchanged |
| SqlQuery.SQLQuery.SetStrategy | querykit/core/sql_query.py:36-40 | replaces the strategy and nothing else |
| SqlQuery.SQLQuery.Validate | querykit/core/sql_query.py:42-58 | the loop over the components computes the statement's validation outcome and changes nothing; it passes exactly on well-formed statements |
| SqlQuery.SQLQuery.Parse | querykit/core/sql_query.py:60-74 | builds the list imperatively and returns the statement's parse; a text is returned only for a well-formed statement |
| SqlQuery.SlotOrderIrrelevant | querykit/core/sql_query.py:18-28 | setting FROM before SELECT parses like SELECT before FROM, and a second `set_select` replaces the first |
| SqlQuery.ParseTwice | querykit/core/sql_query.py:60-74 | parsing an unmodified statement twice gives the same result |
| Builder.QueryBuilder.constructor | querykit/core/query_builder.py:13-14 | wraps a new, empty statement with the given strategy |
| Builder.QueryBuilder.Select | querykit/core/query_builder.py:16-18 | returns the same builder and sets the SELECT slot of the wrapped statement, without appending |
| Builder.QueryBuilder.FromTable | querykit/core/query_builder.py:20-22 | returns the same builder and sets the FROM slot, without appending |
| Builder.QueryBuilder.Where | querykit/core/query_builder.py:24-26 | returns the same builder and appends exactly one WHERE at the end |
| Builder.QueryBuilder.GroupBy | querykit/core/query_builder.py:28-30 | returns the same builder and appends exactly one GROUP BY at the end |
| Builder.QueryBuilder.OrderBy | querykit/core/query_builder.py:32-34 | returns the same builder and appends exactly one ORDER BY with the given direction, ASC by default |
| Builder.QueryBuilder.Join | querykit/core/query_builder.py:36-38 | returns the same builder and appends exactly one JOIN at the end |
| Builder.QueryBuilder.Delete | querykit/core/query_builder.py:40-42 | returns the same builder and appends exactly one DELETE at the end |
| Builder.QueryBuilder.Build | querykit/core/query_builder.py:44-45 | returns the wrapped statement itself |
| Builder.BuildReturnsLiveStatement | querykit/core/query_builder.py:44-45 | a step taken after `build` shows in the statement `build` returned, so it is not a copy |
| Builder.OrderByDefaultsToAscending | querykit/core/query_builder.py:32-34 | `order_by` without a direction appends an ascending ORDER BY |
| Builder.SelectFromThen | querykit/core/sql_query.py:60-74 | `SELECT cols FROM t` followed by one space and the text of one WHERE, GROUP BY, ORDER BY or JOIN |
| Builder.FromTableScenario | tests/test_query_builder.py:12-14 | `SELECT name, age FROM users` |
| Builder.WhereScenario | tests/test_query_builder.py:16-18 | `SELECT name, age FROM users WHERE age > 30` |
| Builder.GroupByScenario | tests/test_query_builder.py:36-38 | `SELECT name, age FROM users GROUP BY age` |
| Builder.OrderByScenario | tests/test_query_builder.py:40-42 | `SELECT name, age FROM users ORDER BY age DESC` |
| Builder.JoinScenario | tests/test_query_builder.py:44-46 | `SELECT users.name, orders.id FROM users JOIN orders ON users.id = orders.user_id` |
| Builder.DeleteScenario | tests/test_query_builder.py:48-50 | `delete('users')` alone passes validation and parses to `DELETE FROM users` |
| Builder.DerivedTableScenario | tests/test_query_builder.py:27-34 | with the inner statement's text placed in the FROM slot, the result is `SELECT name, age FROM (SELECT * FROM users WHERE age > 30) AS sub_alias` |
| QueryValidation.Offence | querykit/core/query_validation.py:11-16 | an entry is accepted exactly when its key is in the schema and its value has the schema's type; an unknown key reports `Invalid query key: <key>` whatever the value |
| QueryValidation.QueryValidator.Validate | querykit/core/query_validation.py:9-16 | validation passes exactly when every entry has a known key and a value of the schema's type |
| QueryValidation.FirstOffence | querykit/core/query_validation.py:10-16 | a failure carries the offence of one of the entries; its partner FirstOffenceDecides says it is the first one |
| QueryValidation.AllAcceptable | querykit/core/query_validation.py:9-16 | validation succeeds exactly when every entry has a known key and a value of the schema's type |
| QueryValidation.FirstOffenceDecides | querykit/core/query_validation.py:10-16 | a failure reports the first offending entry in insertion order; every earlier entry is acceptable |
| QueryValidation.SchemaBeyondQueryIrrelevant | querykit/core/query_validation.py:10-16 | only the query's own keys are looked up, so schema keys absent from the query are never required |
| QueryValidation.ValidateAppend | querykit/core/query_validation.py:10-16 | more entries never hide an earlier failure; once a prefix passes, the outcome is that of the rest |
| QueryValidation.ValidationExamples | querykit/core/query_validation.py:9-16 | an empty query validates; an unknown key reports the key; a mistyped value reports `Invalid query value for key age: thirty` |
| Legacy.ValidateRules | querykit.py:205-214 | the earlier `validate` passes exactly when the three rules hold, with no subquery step |
| Legacy.ExecuteText | querykit.py:216-230 | a rule violation yields exactly the validation error; a text is produced only when the three rules hold and the strategy is the space-joining one |
| Legacy.LegacyAgreesWithPackage | querykit.py:205-230 | on statements without subqueries, the earlier `validate` and `execute` agree with the package's `validate` and `parse` |
| Legacy.SQLQuery.constructor | querykit.py:175-179 | a new statement is empty and holds the given strategy |
| Legacy.SQLQuery.SetSelect | querykit.py:181-185 | overwrites the SELECT slot only |
| Legacy.SQLQuery.SetFrom | querykit.py:187-191 | overwrites the FROM slot only |
| Legacy.SQLQuery.AddComponent | querykit.py:193-197 | appends at the end and keeps everything else |
| Legacy.SQLQuery.SetStrategy | querykit.py:199-203 | replaces the strategy only |
| Legacy.SQLQuery.Execute | querykit.py:216-230 | validates, then builds Select, From and the components in order; the result equals the package's parse, and a text is returned only when the rules hold |
| Legacy.MockExecute | querykit.py:252-254 | status `success` paired with the statement text; a validation error propagates and no result is produced |
| Legacy.UpdateText | querykit.py:339-343 | Update, Set and Where render `UPDATE users SET name = 'John', age = 25 WHERE id = 1` |
| Legacy.UpdateScenario | querykit.py:339-343 | the same statement built step by step executes to that text |
| Legacy.DeleteText | querykit.py:346-348 | Delete and Where pass validation and render `DELETE FROM users WHERE age < 18` |
| Legacy.DeleteScenario | querykit.py:346-348 | the mock execution of that statement reports success with that text |

## Left out

- A Subquery holds a snapshot of the inner statement as a value, not a live reference to the inner object. Changing the inner `SQLQuery` after embedding it, and any aliasing between statements, are not modelled. The model's `Validate` and `Parse` read the snapshot.
- Self-referential Subquery cycles are left out. CPython raises `RecursionError` on them once its recursion limit is reached, and a datatype value cannot contain itself.
- Python stores the caller's objects by reference: `Select`, `OrderBy`, `GroupBy`, `Set` and `Insert` keep the caller's list itself (querykit/core/query_components.py:21, 57, 83, 107, 147-148), `set_select` and the builder's `select` pass it straight through (querykit/core/sql_query.py:22, querykit/core/query_builder.py:17), and `QueryValidator` keeps the caller's dictionaries (querykit/core/query_validation.py:6-7). The model copies these as `seq` and `map` values, so a later change to the caller's list or dictionary, which Python would show in the next `parse()` or `validate()`, is not captured.
- ComponentFacts.RenderingOpensWithKeyword: states that every LIMIT renders. On CPython 3.11 and later (and patched earlier releases) under the default `int_max_str_digits`, `str()` of an integer of more than 4300 digits raises `ValueError`; the model's `Text.IntToString` has no such limit, because the limit is an interpreter setting and not part of querykit.
- `Text.Join` has no contract of its own; what `str.join` promises is stated by `Text.JoinAppend` and `Text.JoinLength`. `Legacy.MockResult` is a plain record; `Legacy.MockExecute` states what it holds.
- The abstract `SQLQueryComponent.to_sql` (querykit/core/query_components.py:10-11) is left out. Every clause in the model is a concrete class. The abstract `QueryStrategy` is modelled as `AbstractStrategy`.
- User-defined strategies and components are left out. Strategies are the two of the source: the abstract base and the standard space-joining one. `SimpleQueryStrategy` in querykit.py is the same code as the standard strategy and maps to it.
- Python's `isinstance` on arbitrary runtime types is replaced by a class-name tag in `QueryValidation.Value`. A value belongs to a set of class names, and its `str()` is its `text`.
- Dictionary key uniqueness is not modelled. The validator reads entries in insertion order, and it behaves the same whether or not keys repeat.
- The execution strategies (querykit/core/execution_strategy.py, and the print and database strategies of querykit.py) are I/O and are left out. So are the database drivers (querykit/core/db_interface.py, dbinterface.py), main.py, the demo block of querykit.py apart from its UPDATE and DELETE statements, and logging. Only the mock execution strategy is modelled.
- The `QueryBuilder` of querykit.py (querykit.py:274-310) is the same code as the package's builder. It is modelled once, in `Builder`.
- `select_with_subquery` and `from_with_subquery` are called by tests/test_query_builder.py but defined nowhere, so they are not modelled. The derived-table expectation is shown with `from_table` in `Builder.DerivedTableScenario`.
- Builder.DerivedTableScenario: states the outer text in terms of the inner statement's text, and gives the inner text separately as a literal, rather than as one flat literal.
- StatementFacts.NestedSubqueries: states the outer text in terms of the one-level statement's text, and gives that text separately as a literal, rather than as one flat literal.
