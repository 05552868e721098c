/**
 * The shape shared by the application's form handlers: an ordered list of
 * checks, each with the alert message shown when it fails, where the first
 * failing check aborts the handler.
 */
module Validation {
  import opened Wrappers

  /** One guard of a handler: whether it passes, and the message shown when it does not. */
  datatype Check = Check(passes: bool, message: string)

  /** Check `i` fails and every check before it passes. */
  predicate FailsFirstAt(checks: seq<Check>, i: int) {
    0 <= i < |checks| && !checks[i].passes && forall j :: 0 <= j < i ==> checks[j].passes
  }

  /** The message of the first failing check, or nothing when all pass. */
  function FirstFailure(checks: seq<Check>): (r: Option<string>)
    ensures r.None? <==> forall i :: 0 <= i < |checks| ==> checks[i].passes
    ensures r.Some? ==> exists i :: FailsFirstAt(checks, i) && checks[i].message == r.value
  {
    if checks == [] then None
    else if !checks[0].passes then
      assert FailsFirstAt(checks, 0);
      Some(checks[0].message)
    else
      var rest := FirstFailure(checks[1..]);
      if rest.Some? then
        var i :| FailsFirstAt(checks[1..], i) && checks[1..][i].message == rest.value;
        assert FailsFirstAt(checks, i + 1);
        rest
      else
        None
  }

  /** The failing check that decides is unique: no later failure can mask an earlier one. */
  lemma FirstFailureIsEarliest(checks: seq<Check>, i: int)
    requires FailsFirstAt(checks, i)
    ensures FirstFailure(checks) == Some(checks[i].message)
  {
    var r := FirstFailure(checks);
    var k :| FailsFirstAt(checks, k) && checks[k].message == r.value;
    assert k == i;
  }

  /** Unfolds the search by one check. */
  lemma FirstFailureCons(c: Check, rest: seq<Check>)
    ensures FirstFailure([c] + rest) == if c.passes then FirstFailure(rest) else Some(c.message)
  {
    assert ([c] + rest)[1..] == rest;
  }
}
