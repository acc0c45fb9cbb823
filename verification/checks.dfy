/**
 * Ordered validation chains: a list of checks, each with the message the form
 * shows when it fails; the first failing check wins and the rest are not
 * looked at (the `if (...) { setError(...); return }` sequences of the forms).
 */
module Checks {
  import opened Wrappers

  datatype Check = Check(passed: bool, message: string)

  /** The message of the first failing check, or None when every check passes. */
  function FirstFailure(checks: seq<Check>): (r: Option<string>)
    ensures r == None <==> forall i :: 0 <= i < |checks| ==> checks[i].passed
    ensures r.Some? ==> exists i :: (0 <= i < |checks| && !checks[i].passed
                                     && r.value == checks[i].message
                                     && forall j :: 0 <= j < i ==> checks[j].passed)
  {
    if checks == [] then None
    else if !checks[0].passed then Some(checks[0].message)
    else
      var rest := FirstFailure(checks[1..]);
      assert forall i :: 1 <= i < |checks| ==> checks[i] == checks[1..][i - 1];
      rest
  }

  /** The failing check at index `i`, with every earlier check passing, decides the message. */
  lemma {:induction false} FirstFailureAt(checks: seq<Check>, i: nat)
    requires i < |checks| && !checks[i].passed
    requires forall j :: 0 <= j < i ==> checks[j].passed
    ensures FirstFailure(checks) == Some(checks[i].message)
  {
    if i > 0 {
      FirstFailureAt(checks[1..], i - 1);
    }
  }
}
