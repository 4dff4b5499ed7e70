/** What the render strategies of querykit/core/query_strategy.py promise:
    the standard strategy is the components' renderings joined by exactly one
    space in list order, and the abstract base strategy always raises. */
module StrategyFacts {
  import Text
  import opened Wrappers
  import opened QueryCore

  /** Rendering a list succeeds exactly when every component renders; the
      texts are then the components' own, in order, and otherwise the error
      is that of the first component that fails. */
  lemma {:induction false} RenderAllInOrder(cs: seq<Component>)
    ensures RenderAll(cs).Ok? <==> (forall i :: 0 <= i < |cs| ==> ToSql(cs[i]).Ok?)
    ensures RenderAll(cs).Ok? ==>
      |RenderAll(cs).value| == |cs|
      && forall i :: 0 <= i < |cs| ==> RenderAll(cs).value[i] == ToSql(cs[i]).value
    ensures RenderAll(cs).Err? ==>
      exists k :: 0 <= k < |cs| && ToSql(cs[k]) == Err(RenderAll(cs).error)
                  && forall i :: 0 <= i < k ==> ToSql(cs[i]).Ok?
  {
    if |cs| > 0 {
      var tail := cs[1..];
      RenderAllInOrder(tail);
      assert forall i :: 1 <= i < |cs| ==> cs[i] == tail[i - 1];
      if ToSql(cs[0]).Ok? && RenderAll(tail).Err? {
        var k' :| 0 <= k' < |tail| && ToSql(tail[k']) == Err(RenderAll(tail).error)
                  && forall i :: 0 <= i < k' ==> ToSql(tail[i]).Ok?;
        assert ToSql(cs[k' + 1]) == Err(RenderAll(cs).error);
      } else if ToSql(cs[0]).Err? {
        assert ToSql(cs[0]) == Err(RenderAll(cs).error);
      }
    }
  }

  /** Rendering a list with one more component at the end: the earlier
      failure wins, then the new component's, and otherwise its text is
      added at the end. */
  lemma {:induction false} RenderAllAppend(xs: seq<Component>, c: Component)
    ensures RenderAll(xs + [c]) ==
      match RenderAll(xs)
      case Err(e) => Err(e)
      case Ok(texts) =>
        match ToSql(c)
        case Err(e) => Err(e)
        case Ok(text) => Ok(texts + [text])
  {
    if |xs| == 0 {
      assert xs + [c] == [c] && [c][1..] == [];
      if ToSql(c).Ok? {
        var text := ToSql(c).value;
        assert RenderAll([c]) == Ok([text] + []);
        assert [text] + [] == [] + [text];
      }
    } else {
      assert (xs + [c])[0] == xs[0] && (xs + [c])[1..] == xs[1..] + [c];
      RenderAllAppend(xs[1..], c);
      if ToSql(xs[0]).Ok? && RenderAll(xs[1..]).Ok? && ToSql(c).Ok? {
        assert [ToSql(xs[0]).value] + (RenderAll(xs[1..]).value + [ToSql(c).value])
            == ([ToSql(xs[0]).value] + RenderAll(xs[1..]).value) + [ToSql(c).value];
      }
    }
  }

  /** An empty component list builds to the empty string. */
  lemma BuildEmpty()
    ensures BuildQuery(StandardStrategy, []) == Ok("")
  {
  }

  /** A one-component list builds to exactly that component's text. */
  lemma BuildSingle(c: Component)
    ensures BuildQuery(StandardStrategy, [c]) == ToSql(c)
  {
    assert [c][1..] == [];
    if ToSql(c).Ok? {
      var text := ToSql(c).value;
      assert RenderAll([c]) == Ok([text] + []);
      assert [text] + [] == [text];
    }
  }

  /** Append law: one more component adds one space and its text at the
      end; a failure anywhere propagates, earlier components first. */
  lemma BuildAppend(xs: seq<Component>, c: Component)
    requires |xs| > 0
    ensures BuildQuery(StandardStrategy, xs + [c]) ==
      match BuildQuery(StandardStrategy, xs)
      case Err(e) => Err(e)
      case Ok(text) =>
        match ToSql(c)
        case Err(e) => Err(e)
        case Ok(last) => Ok(text + " " + last)
  {
    RenderAllAppend(xs, c);
    RenderAllInOrder(xs);
    if RenderAll(xs).Ok? && ToSql(c).Ok? {
      Text.JoinAppend(" ", RenderAll(xs).value, ToSql(c).value);
    }
  }

  /** Prepend law: a component in front adds its text and one space before
      the rest. */
  lemma BuildPrepend(c: Component, xs: seq<Component>)
    requires |xs| > 0
    ensures BuildQuery(StandardStrategy, [c] + xs) ==
      match ToSql(c)
      case Err(e) => Err(e)
      case Ok(first) =>
        match BuildQuery(StandardStrategy, xs)
        case Err(e) => Err(e)
        case Ok(text) => Ok(first + " " + text)
  {
    assert ([c] + xs)[0] == c && ([c] + xs)[1..] == xs;
    RenderAllInOrder(xs);
    if ToSql(c).Ok? && RenderAll(xs).Ok? {
      var texts := [ToSql(c).value] + RenderAll(xs).value;
      assert |texts| > 1 && texts[1..] == RenderAll(xs).value;
    }
  }

  /** The abstract base strategy has no behaviour: it raises whatever it is
      given. */
  lemma AbstractStrategyRaises(cs: seq<Component>)
    ensures BuildQuery(AbstractStrategy, cs) == Err(NotImplementedError("Must be implemented in subclasses"))
  {
  }
}
