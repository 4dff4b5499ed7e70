/** What the clause renderings of querykit/core/query_components.py promise:
    each is total (only a Subquery can fail), opens with its clause keyword,
    and keeps its arguments recoverable from the text where the format
    allows it. */
module ComponentFacts {
  import Text
  import opened Wrappers
  import opened QueryCore

  /** The keyword each clause's text opens with. */
  function Keyword(c: Component): (k: string)
  {
    match c
    case Select(_) => "SELECT "
    case From(_) => "FROM "
    case Where(_) => "WHERE "
    case OrderBy(_, _) => "ORDER BY "
    case Join(_, _) => "JOIN "
    case GroupBy(_) => "GROUP BY "
    case Update(_) => "UPDATE "
    case SetClause(_) => "SET "
    case Delete(_) => "DELETE FROM "
    case Limit(_, _) => "LIMIT "
    case Insert(_, _, _) => "INSERT INTO "
    case Subquery(_) => "("
  }

  /** Every clause but a Subquery renders without failing, and every
      rendering starts with the clause's keyword. */
  lemma RenderingOpensWithKeyword(c: Component)
    ensures !c.Subquery? ==> ToSql(c).Ok?
    ensures ToSql(c).Ok? ==> Keyword(c) <= ToSql(c).value
  {
  }

  predicate IsVerbatimClause(c: Component)
  {
    c.From? || c.Where? || c.Update? || c.Delete?
  }

  /** The one argument of a FROM, WHERE, UPDATE or DELETE clause. */
  function VerbatimArgument(c: Component): string
    requires IsVerbatimClause(c)
  {
    if c.Where? then c.condition else c.table
  }

  /** FROM, WHERE, UPDATE and DELETE print their argument unchanged after
      the keyword: the text determines both the clause and its argument. */
  lemma VerbatimClauseInjective(c1: Component, c2: Component)
    requires IsVerbatimClause(c1) && IsVerbatimClause(c2)
    requires ToSql(c1) == ToSql(c2)
    ensures c1 == c2
  {
    var s := ToSql(c1).value;
    assert s == Keyword(c1) + VerbatimArgument(c1) && s == Keyword(c2) + VerbatimArgument(c2);
    assert s[0] == Keyword(c1)[0] && s[0] == Keyword(c2)[0];
    var k := |Keyword(c1)|;
    assert Keyword(c1) == Keyword(c2);
    assert VerbatimArgument(c1) == s[k..] == VerbatimArgument(c2);
  }

  /** A JOIN whose table name has no space is read back from its text:
      the table is the first word after the keyword and the condition is
      what follows " ON ". */
  lemma JoinInjective(t1: string, cond1: string, t2: string, cond2: string)
    requires ' ' !in t1 && ' ' !in t2
    requires ToSql(Join(t1, cond1)) == ToSql(Join(t2, cond2))
    ensures t1 == t2 && cond1 == cond2
  {
    var s := ToSql(Join(t1, cond1)).value;
    assert s == "JOIN " + t1 + " ON " + cond1 && s == "JOIN " + t2 + " ON " + cond2;
    var rest := s[5..];
    assert rest == t1 + " " + ("ON " + cond1) && rest == t2 + " " + ("ON " + cond2);
    Text.SplitAtSpace(t1, "ON " + cond1, t2, "ON " + cond2);
    assert cond1 == ("ON " + cond1)[3..] && cond2 == ("ON " + cond2)[3..];
  }

  /** What a LIMIT prints after its number. */
  function LimitTail(offset: Option<int>): (tail: string)
  {
    if offset.Some? then " OFFSET " + Text.IntToString(offset.value) else ""
  }

  lemma LimitText(n: int, offset: Option<int>)
    ensures ToSql(Limit(n, offset)) == Ok("LIMIT " + (Text.IntToString(n) + LimitTail(offset)))
  {
    var a := Text.IntToString(n);
    if offset.Some? {
      var m := Text.IntToString(offset.value);
      assert ToSql(Limit(n, offset)) == Ok("LIMIT " + a + " OFFSET " + m);
      Regroup("LIMIT ", a, " OFFSET ", m);
    } else {
      assert a + LimitTail(offset) == a;
    }
  }

  lemma Regroup(w: string, x: string, y: string, z: string)
    ensures w + x + y + z == w + (x + (y + z))
  {
  }

  /** LIMIT keeps both numbers: an offset that is present, even 0, prints an
      OFFSET part, and an absent one prints nothing, so two LIMIT clauses
      with the same text have the same limit and the same offset. */
  lemma LimitInjective(n1: int, o1: Option<int>, n2: int, o2: Option<int>)
    requires ToSql(Limit(n1, o1)) == ToSql(Limit(n2, o2))
    ensures n1 == n2 && o1 == o2
  {
    LimitText(n1, o1);
    LimitText(n2, o2);
    var rest1, rest2 := Text.IntToString(n1) + LimitTail(o1), Text.IntToString(n2) + LimitTail(o2);
    assert rest1 == ("LIMIT " + rest1)[6..] && rest2 == ("LIMIT " + rest2)[6..];
    LimitBodyInjective(n1, o1, n2, o2);
  }

  lemma LimitBodyInjective(n1: int, o1: Option<int>, n2: int, o2: Option<int>)
    requires Text.IntToString(n1) + LimitTail(o1) == Text.IntToString(n2) + LimitTail(o2)
    ensures n1 == n2 && o1 == o2
  {
    if o1.Some? && o2.Some? {
      BothOffsets(n1, o1.value, n2, o2.value);
    } else if o1.Some? {
      OffsetTailDiffers(n1, o1.value, n2);
    } else if o2.Some? {
      OffsetTailDiffers(n2, o2.value, n1);
    } else {
      assert Text.IntToString(n1) == Text.IntToString(n1) + LimitTail(o1);
      assert Text.IntToString(n2) == Text.IntToString(n2) + LimitTail(o2);
      Text.IntToStringInjective(n1, n2);
    }
  }

  lemma BothOffsets(n1: int, m1: int, n2: int, m2: int)
    requires Text.IntToString(n1) + LimitTail(Some(m1)) == Text.IntToString(n2) + LimitTail(Some(m2))
    ensures n1 == n2 && m1 == m2
  {
    OffsetText(n1, m1);
    OffsetText(n2, m2);
    Text.IntToStringHasNoSpace(n1);
    Text.IntToStringHasNoSpace(n2);
    SplitOffset(Text.IntToString(n1), Text.IntToString(m1), Text.IntToString(n2), Text.IntToString(m2));
    Text.IntToStringInjective(m1, m2);
    Text.IntToStringInjective(n1, n2);
  }

  lemma OffsetText(n: int, m: int)
    ensures Text.IntToString(n) + LimitTail(Some(m)) == Text.IntToString(n) + " " + ("OFFSET " + Text.IntToString(m))
  {
  }

  lemma SplitOffset(a: string, t1: string, b: string, t2: string)
    requires ' ' !in a && ' ' !in b
    requires a + " " + ("OFFSET " + t1) == b + " " + ("OFFSET " + t2)
    ensures a == b && t1 == t2
  {
    Text.SplitAtSpace(a, "OFFSET " + t1, b, "OFFSET " + t2);
    assert t1 == ("OFFSET " + t1)[7..] && t2 == ("OFFSET " + t2)[7..];
  }

  /** A LIMIT with an offset never prints like one without, even when the
      offset is 0. */
  lemma OffsetNotAbsent(n1: int, m1: int, n2: int)
    ensures ToSql(Limit(n1, Some(m1))) != ToSql(Limit(n2, None))
  {
    if ToSql(Limit(n1, Some(m1))) == ToSql(Limit(n2, None)) {
      LimitInjective(n1, Some(m1), n2, None);
    }
  }

  lemma OffsetTailDiffers(n1: int, m1: int, n2: int)
    ensures Text.IntToString(n1) + LimitTail(Some(m1)) != Text.IntToString(n2)
  {
    var a, b := Text.IntToString(n1), Text.IntToString(n2);
    var l := a + LimitTail(Some(m1));
    Text.IntToStringHasNoSpace(n2);
    assert l[|a|] == ' ';
    assert |l| > |a|;
  }

  /** INSERT wraps every value in single quotes and escapes nothing: each
      value adds exactly its own length plus its two quotes to the text,
      however many columns there are. */
  lemma InsertQuotesVerbatim(t: string, cols: seq<string>, vals: seq<string>)
    ensures ToSql(Insert(t, cols, vals)).Ok?
    ensures |ToSql(Insert(t, cols, vals)).value|
         == |"INSERT INTO "| + |t| + |" ("| + |Text.Join(", ", cols)| + |") VALUES ("|
            + Text.TotalLength(vals) + 2 * |vals| + (if |vals| == 0 then 0 else 2 * (|vals| - 1)) + |")"|
  {
    var quoted := Text.QuoteAll(vals);
    Text.JoinLength(", ", quoted);
    QuotedLength(vals);
  }

  lemma {:induction false} QuotedLength(vals: seq<string>)
    ensures Text.TotalLength(Text.QuoteAll(vals)) == Text.TotalLength(vals) + 2 * |vals|
  {
    if |vals| > 0 {
      assert Text.QuoteAll(vals)[1..] == Text.QuoteAll(vals[1..]);
      QuotedLength(vals[1..]);
    }
  }

  /** Renderings of the list clauses at their edge cases: no columns, the
      default and an explicit `None` direction. */
  lemma ListClauseExamples()
    ensures ToSql(Select([])) == Ok("SELECT ")
    ensures ToSql(Select(["name", "age"])) == Ok("SELECT name, age")
    ensures ToSql(OrderBy(["age"])) == Ok("ORDER BY age ASC")
    ensures ToSql(OrderBy(["a", "b"], None)) == Ok("ORDER BY a, b None")
  {
    assert ToSql(Select([])) == Ok("SELECT " + Text.Join(", ", []));
    assert "SELECT " + "" == "SELECT ";
    Text.JoinPair(", ", "name", "age");
    assert ToSql(Select(["name", "age"])) == Ok("SELECT " + ("name" + ", " + "age"));
    assert "SELECT " + ("name" + ", " + "age") == "SELECT name, age";
    assert ToSql(OrderBy(["age"])) == Ok("ORDER BY " + "age" + " " + "ASC");
    assert "ORDER BY " + "age" + " " + "ASC" == "ORDER BY age ASC";
    Text.JoinPair(", ", "a", "b");
    assert ToSql(OrderBy(["a", "b"], None)) == Ok("ORDER BY " + ("a" + ", " + "b") + " " + "None");
    assert "ORDER BY " + ("a" + ", " + "b") + " " + "None" == "ORDER BY a, b None";
  }

  /** LIMIT with and without an offset, a zero offset and a negative limit. */
  lemma LimitExamples()
    ensures ToSql(Limit(10)) == Ok("LIMIT 10")
    ensures ToSql(Limit(10, Some(0))) == Ok("LIMIT 10 OFFSET 0")
    ensures ToSql(Limit(-5, Some(20))) == Ok("LIMIT -5 OFFSET 20")
  {
    assert Text.IntToString(10) == "10" by {
      assert Text.NatToString(10) == Text.NatToString(1) + [Text.DigitChar(0)];
    }
    assert Text.IntToString(20) == "20" by {
      assert Text.NatToString(20) == Text.NatToString(2) + [Text.DigitChar(0)];
    }
    assert Text.IntToString(-5) == "-5";
    assert Text.IntToString(0) == "0";
    assert ToSql(Limit(10)) == Ok("LIMIT " + "10");
    assert "LIMIT " + "10" == "LIMIT 10";
    assert ToSql(Limit(10, Some(0))) == Ok("LIMIT " + "10" + " OFFSET " + "0");
    assert "LIMIT " + "10" + " OFFSET " + "0" == "LIMIT 10 OFFSET 0";
    assert ToSql(Limit(-5, Some(20))) == Ok("LIMIT " + "-5" + " OFFSET " + "20");
    assert "LIMIT " + "-5" + " OFFSET " + "20" == "LIMIT -5 OFFSET 20";
  }

  /** A value holding a quote is inserted as it is, leaving the literal
      unbalanced. */
  lemma InsertExample()
    ensures ToSql(Insert("users", ["name"], ["O'Brien", "x"])) == Ok("INSERT INTO users (name) VALUES ('O'Brien', 'x')")
  {
    InsertValues();
    assert Text.Join(", ", ["name"]) == "name";
    InsertLiteral();
  }

  lemma InsertValues()
    ensures Text.Join(", ", Text.QuoteAll(["O'Brien", "x"])) == "'O'Brien', 'x'"
  {
    var quoted := Text.QuoteAll(["O'Brien", "x"]);
    assert quoted == ["'O'Brien'", "'x'"] by {
      assert ["O'Brien", "x"][1..] == ["x"];
      assert ["x"][1..] == [];
      assert Text.Quote("x") == "'x'";
      assert Text.Quote("O'Brien") == "'O'Brien'";
    }
    Text.JoinPair(", ", "'O'Brien'", "'x'");
  }

  lemma InsertLiteral()
    ensures "INSERT INTO " + "users" + " (" + "name" + ") VALUES (" + "'O'Brien', 'x'" + ")"
         == "INSERT INTO users (name) VALUES ('O'Brien', 'x')"
  {
    assert "INSERT INTO " + "users" + " (" + "name" == "INSERT INTO users (name";
    assert "INSERT INTO users (name" + ") VALUES (" == "INSERT INTO users (name) VALUES (";
    assert "'O'Brien', 'x'" + ")" == "'O'Brien', 'x')";
  }
}
