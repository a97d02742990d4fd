/** The signed client's attempt loop. */
module Client {

  datatype Outcome = Success | Raised(status: nat) | Exhausted

  /** One attempt, and three retries if retrying is on. */
  function Attempts(retry: bool): nat {
    if retry then 4 else 1
  }

  predicate Ok(status: nat) {
    200 <= status < 300
  }

  /** A status that ends the loop: success, or an error that is not retried. */
  predicate Conclusive(retry: bool, status: nat) {
    Ok(status) || !(status == 429 || (status >= 500 && retry))
  }

  /**
   With `retry` off - every order - exactly one request is sent, and only a 429 escapes as
   "failed after retries"; with it on at most four are, the last being the first conclusive one.
   */
  method Request(retry: bool, respond: nat -> nat) returns (sent: nat, outcome: Outcome)
    ensures 1 <= sent <= if retry then 4 else 1
    ensures !retry ==> sent == 1 && (outcome.Exhausted? <==> respond(0) == 429)
    ensures forall i :: 0 <= i < sent - 1 ==> respond(i) == 429 || (retry && respond(i) >= 500)
    ensures outcome.Success? <==> 200 <= respond(sent - 1) < 300
    ensures outcome.Exhausted? <==> respond(sent - 1) == 429 || (retry && respond(sent - 1) >= 500)
    ensures outcome.Raised? ==> outcome.status == respond(sent - 1)
    ensures outcome.Exhausted? ==> sent == if retry then 4 else 1
  {
    sent := 0;
    while sent < Attempts(retry)
      invariant sent <= Attempts(retry)
      invariant forall i :: 0 <= i < sent ==> !Conclusive(retry, respond(i))
    {
      var status := respond(sent);
      sent := sent + 1;
      if Ok(status) {
        return sent, Success;
      }
      if status == 429 {
        continue;
      }
      if status >= 500 && retry {
        continue;
      }
      return sent, Raised(status);
    }
    outcome := Exhausted;
  }
}
