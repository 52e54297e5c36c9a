/** The shape every `catch` block of the server shares: an ordered list of
    tests on the thrown value, each selecting a response, and a fallback for a
    value no test recognises. The first passing test wins. */
module Cascade {
  import opened Outcomes
  import opened Js
  import opened Http

  /** The tests the `catch` blocks apply. The name and message tests sit
      inside `isError(error)` and never pass for a non-`Error`; the code tests
      are `isPrismaError(error)`, alone or with a particular `code`. */
  datatype Test =
    | NameIs(name: string)
    | MessageIncludes(fragment: string)
    | CodeIs(code: string)
    | HasCode

  /** A test and the response it selects. */
  datatype Rule = Rule(test: Test, response: Response)

  predicate Matches(t: Test, e: Thrown) {
    match t
    case NameIs(n) => IsError(e) && e.name == n
    case MessageIncludes(f) => IsError(e) && Includes(e.message, f)
    case CodeIs(c) => IsPrismaError(e) && e.code == Some(c)
    case HasCode => IsPrismaError(e)
  }

  /** The response of the first rule, in order, that `e` passes. */
  function FirstMatch(rules: seq<Rule>, e: Thrown): (m: Option<Response>)
    ensures m.Some? <==> exists i :: 0 <= i < |rules| && Matches(rules[i].test, e)
    ensures m.Some? ==> exists i :: (0 <= i < |rules| && Matches(rules[i].test, e)
      && m.value == rules[i].response
      && forall j :: 0 <= j < i ==> !Matches(rules[j].test, e))
  {
    if |rules| == 0 then None
    else if Matches(rules[0].test, e) then Some(rules[0].response)
    else
      var m := FirstMatch(rules[1..], e);
      assert forall i :: 0 < i < |rules| ==> rules[i] == rules[1..][i - 1];
      if m.Some? then
        var k :| 0 <= k < |rules[1..]| && Matches(rules[1..][k].test, e)
          && m.value == rules[1..][k].response
          && forall j :: 0 <= j < k ==> !Matches(rules[1..][j].test, e);
        assert Matches(rules[k + 1].test, e) && m.value == rules[k + 1].response;
        m
      else
        m
  }

  /** A whole `catch` block: the first matching rule's response, or
      `otherwise` when no rule matches. */
  function Classify(rules: seq<Rule>, otherwise: Response, e: Thrown): Response {
    match FirstMatch(rules, e)
    case Some(r) => r
    case None => otherwise
  }
}
