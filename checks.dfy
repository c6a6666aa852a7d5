/**
 * Both front ends validate their input as a fixed sequence of checks and
 * report the first one that fails.
 */
module Checks {
  import opened Wrappers

  /** A check and the error reported when it fails. */
  datatype Check<E> = Check(passes: bool, error: E)

  /** The error of the first failing check, if any fails. */
  function FirstFailure<E(==)>(checks: seq<Check<E>>): (r: Option<E>)
    ensures r.None? <==> forall k :: 0 <= k < |checks| ==> checks[k].passes
    ensures r.Some? ==> exists k :: 0 <= k < |checks| && !checks[k].passes && checks[k].error == r.value
                                    && forall j :: 0 <= j < k ==> checks[j].passes
    decreases |checks|
  {
    if |checks| == 0 then None
    else if !checks[0].passes then Some(checks[0].error)
    else
      var r := FirstFailure(checks[1..]);
      if r.Some? then
        var k :| 0 <= k < |checks[1..]| && !checks[1..][k].passes && checks[1..][k].error == r.value
                 && forall j :: 0 <= j < k ==> checks[1..][j].passes;
        assert checks[k + 1] == checks[1..][k];
        r
      else r
  }

  /** The first failing check decides the result, whatever follows it. */
  lemma FirstFailureAt<E>(checks: seq<Check<E>>, k: int)
    requires 0 <= k < |checks| && !checks[k].passes
    requires forall j :: 0 <= j < k ==> checks[j].passes
    ensures FirstFailure(checks) == Some(checks[k].error)
  {
    var r := FirstFailure(checks);
    var i :| 0 <= i < |checks| && !checks[i].passes && checks[i].error == r.value
             && forall j :: 0 <= j < i ==> checks[j].passes;
    assert i == k;
  }
}
