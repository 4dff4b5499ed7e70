/** The dictionary validator of querykit/core/query_validation.py: every
    entry of a query dictionary must have a key the schema knows and a value
    of the type the schema gives for that key; the first offending entry, in
    the dictionary's insertion order, decides the error. */
module QueryValidation {
  import opened Wrappers

  /** A type is named by its class name; `isinstance(v, T)` holds when `T`
      is among the classes the value is an instance of (its own class and
      its bases). */
  type TypeName = string

  /** A dictionary value: its `str()` text and the classes it belongs to. */
  datatype Value = Value(text: string, classes: set<TypeName>)

  datatype QueryValidationError = QueryValidationError(message: string)

  /** The dictionary as its entries in insertion order. */
  type Entries = seq<(string, Value)>
  type Schema = map<string, TypeName>

  predicate Acceptable(entry: (string, Value), schema: Schema)
  {
    entry.0 in schema && schema[entry.0] in entry.1.classes
  }

  /** The check of one entry: the key first, then the value's type. */
  function Offence(entry: (string, Value), schema: Schema): (r: Option<QueryValidationError>)
    ensures r.None? <==> Acceptable(entry, schema)
    ensures entry.0 !in schema ==> r == Some(QueryValidationError("Invalid query key: " + entry.0))
  {
    var (key, value) := entry;
    if key !in schema then Some(QueryValidationError("Invalid query key: " + key))
    else if schema[key] !in value.classes then
      Some(QueryValidationError("Invalid query value for key " + key + ": " + value.text))
    else None
  }

  /** The validator object: it keeps the dictionary and the schema it was
      built with and never changes them. */
  datatype QueryValidator = QueryValidator(query: Entries, schema: Schema)
  {
    /** `validate()`: the entries in order, stopping at the first
        offence. It succeeds exactly when every key is in the schema and
        every value has the schema's type for its key. */
    function Validate(): (o: Outcome<QueryValidationError>)
      ensures o.Pass? <==> forall i :: 0 <= i < |query| ==> Acceptable(query[i], schema)
    {
      AllAcceptable(query, schema);
      FirstOffence(query, schema)
    }
  }

  /** The loop of `validate()`: a failure is always the offence of one of
      the entries. */
  function FirstOffence(entries: Entries, schema: Schema): (o: Outcome<QueryValidationError>)
    ensures o.Fail? ==> exists k :: 0 <= k < |entries| && Offence(entries[k], schema) == Some(o.error)
  {
    if |entries| == 0 then Pass
    else
      assert forall k :: 1 <= k < |entries| ==> entries[k] == entries[1..][k - 1];
      match Offence(entries[0], schema)
      case Some(e) => Fail(e)
      case None => FirstOffence(entries[1..], schema)
  }

  lemma {:induction false} AllAcceptable(entries: Entries, schema: Schema)
    ensures FirstOffence(entries, schema).Pass? <==> forall i :: 0 <= i < |entries| ==> Acceptable(entries[i], schema)
  {
    if |entries| > 0 {
      AllAcceptable(entries[1..], schema);
      assert forall i :: 1 <= i < |entries| ==> entries[i] == entries[1..][i - 1];
    }
  }

  /** A failure reports the first offending entry: every entry before it is
      acceptable, and the error is that entry's own offence — the unknown-key
      error when its key is missing from the schema, whatever its value. */
  lemma {:induction false} FirstOffenceDecides(v: QueryValidator)
    ensures v.Validate().Fail? ==>
      exists k :: 0 <= k < |v.query|
        && (forall i :: 0 <= i < k ==> Acceptable(v.query[i], v.schema))
        && Offence(v.query[k], v.schema) == Some(v.Validate().error)
  {
    FirstOffenceAt(v.query, v.schema);
  }

  lemma {:induction false} FirstOffenceAt(entries: Entries, schema: Schema)
    ensures FirstOffence(entries, schema).Fail? ==>
      exists k :: 0 <= k < |entries|
        && (forall i :: 0 <= i < k ==> Acceptable(entries[i], schema))
        && Offence(entries[k], schema) == Some(FirstOffence(entries, schema).error)
  {
    if |entries| > 0 && Offence(entries[0], schema).None? {
      FirstOffenceAt(entries[1..], schema);
      if FirstOffence(entries[1..], schema).Fail? {
        var k :| 0 <= k < |entries[1..]|
          && (forall i :: 0 <= i < k ==> Acceptable(entries[1..][i], schema))
          && Offence(entries[1..][k], schema) == Some(FirstOffence(entries[1..], schema).error);
        assert entries[k + 1] == entries[1..][k];
        assert forall i :: 1 <= i < k + 1 ==> entries[i] == entries[1..][i - 1];
      }
    }
  }

  /** Only the dictionary's own keys are looked up: a schema that agrees on
      them validates identically, so schema keys absent from the dictionary
      are never required. */
  lemma {:induction false} SchemaBeyondQueryIrrelevant(entries: Entries, schema: Schema, other: Schema)
    requires forall i :: 0 <= i < |entries| ==>
      (entries[i].0 in schema <==> entries[i].0 in other)
      && (entries[i].0 in schema ==> schema[entries[i].0] == other[entries[i].0])
    ensures FirstOffence(entries, schema) == FirstOffence(entries, other)
  {
    if |entries| > 0 {
      assert forall i :: 1 <= i < |entries| ==> entries[i] == entries[1..][i - 1];
      SchemaBeyondQueryIrrelevant(entries[1..], schema, other);
    }
  }

  /** Extending the dictionary with more entries keeps an earlier failure,
      and once the prefix passes the outcome is that of the new entries. */
  lemma {:induction false} ValidateAppend(entries: Entries, more: Entries, schema: Schema)
    ensures FirstOffence(entries + more, schema) ==
      if FirstOffence(entries, schema).Fail? then FirstOffence(entries, schema) else FirstOffence(more, schema)
  {
    if |entries| > 0 {
      assert (entries + more)[0] == entries[0] && (entries + more)[1..] == entries[1..] + more;
      ValidateAppend(entries[1..], more, schema);
    } else {
      assert entries + more == more;
    }
  }

  /** An empty dictionary validates against any schema, and an unknown key
      with a badly typed value reports the key. */
  lemma ValidationExamples(schema: Schema, value: Value)
    ensures QueryValidator([], schema).Validate() == Pass
    ensures "age" !in schema ==>
      QueryValidator([("age", value)], schema).Validate() == Fail(QueryValidationError("Invalid query key: age"))
    ensures QueryValidator([("age", Value("thirty", {"str"}))], map["age" := "int"]).Validate()
         == Fail(QueryValidationError("Invalid query value for key age: thirty"))
  {
    assert [("age", value)][1..] == [];
    assert "Invalid query key: " + "age" == "Invalid query key: age";
    assert "Invalid query value for key " + "age" + ": " + "thirty" == "Invalid query value for key age: thirty";
  }
}
