/** Waiting for a predicate, with or without a time limit. */
module Async {

  /** What one check sees: the predicate's value, and then whether time is up. */
  datatype Check = Check(value: bool, timedOut: bool)

  predicate Done(c: Check) { c.value || c.timedOut }

  /** The value of the first check that is done. */
  function Waited(checks: seq<Check>): bool
    decreases |checks|
  {
    if checks == [] then false
    else if Done(checks[0]) then checks[0].value
    else Waited(checks[1..])
  }

  /** When only the last check is done, its value is the result. */
  lemma {:induction false} WaitedForLast(checks: seq<Check>)
    requires checks != [] && Done(checks[|checks| - 1])
    requires forall i :: 0 <= i < |checks| - 1 ==> !Done(checks[i])
    ensures Waited(checks) == checks[|checks| - 1].value
    decreases |checks|
  {
    if |checks| > 1 {
      assert forall i :: 0 <= i < |checks| - 1 ==> checks[1..][i] == checks[i + 1];
      WaitedForLast(checks[1..]);
    }
  }

  lemma {:induction false} WaitedInPrefix(checks: seq<Check>, n: nat)
    requires n < |checks| && Done(checks[n]) && forall i :: 0 <= i < n ==> !Done(checks[i])
    ensures Waited(checks) == checks[n].value
    decreases n
  {
    if n > 0 {
      assert forall i :: 0 <= i < n ==> checks[1..][i] == checks[i + 1];
      WaitedInPrefix(checks[1..], n - 1);
    }
  }

  /** Polls until a check is done. `checks` are the observations in order; one of them must be done
      for the loop to end. The result is the predicate's last value, not the time limit's. */
  method WaitUntil(checks: seq<Check>) returns (fnResult: bool, polls: nat)
    requires exists k :: 0 <= k < |checks| && Done(checks[k])
    ensures 1 <= polls <= |checks|
    ensures fnResult == checks[polls - 1].value && Done(checks[polls - 1])
    ensures forall k :: 0 <= k < polls - 1 ==> !checks[k].value && !checks[k].timedOut
    ensures fnResult == Waited(checks)
  {
    fnResult := checks[0].value;
    var timedOut := checks[0].timedOut;
    polls := 1;
    while !(fnResult || timedOut)
      invariant 1 <= polls <= |checks|
      invariant fnResult == checks[polls - 1].value && timedOut == checks[polls - 1].timedOut
      invariant forall k :: 0 <= k < polls - 1 ==> !Done(checks[k])
      decreases |checks| - polls
    {
      fnResult := checks[polls].value;
      timedOut := checks[polls].timedOut;
      polls := polls + 1;
    }
    WaitedInPrefix(checks, polls - 1);
  }
}
