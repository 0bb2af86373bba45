/** How a request to GitHub is sent: reads are tried up to four times, writes
    exactly once, because a write that timed out may have been carried out. The
    attempts are given with what the caller sees of each and whether the server
    acted on it; the cleanup protocol rests on a write having at most one
    effect. */
module GithubRequests {

  const MAX_ATTEMPTS := 4

  /** What happens to one attempt; `carriedOut` says whether the server acted on
      it, which the caller may not learn. */
  datatype Attempt =
    | ConnectionLost(carriedOut: bool)
    | Answered(status: int, carriedOut: bool)

  datatype Answer = Raised | Response(status: int)

  predicate Transient(a: Attempt) {
    a.ConnectionLost? || a.status in {429, 500, 502, 503, 504}
  }

  /** A failure that may pass: the connection was lost, or there were too many
      requests, or the server or one before it failed. */
  predicate MayPass(a: Attempt) {
    a.ConnectionLost? || a.status == 429 || a.status == 500 || 502 <= a.status <= 504
  }

  /** What the caller gets from the last attempt: an error status is raised. */
  function AnswerOf(a: Attempt): Answer {
    if a.ConnectionLost? || a.status >= 400 then Raised else Response(a.status)
  }

  function CarriedOut(attempts: seq<Attempt>): nat {
    if attempts == [] then 0
    else CarriedOut(attempts[..|attempts| - 1]) + if attempts[|attempts| - 1].carriedOut then 1 else 0
  }

  /** Sends up to the limit and stops at the first attempt that is not
      transient. */
  method Send(retry: bool, attempts: seq<Attempt>) returns (answer: Answer, sent: nat, effects: nat)
    requires |attempts| >= MAX_ATTEMPTS
    ensures 1 <= sent <= if retry then 4 else 1
    ensures forall i | 0 <= i < sent - 1 :: MayPass(attempts[i])
    ensures sent == (if retry then 4 else 1) || !MayPass(attempts[sent - 1])
    ensures var last := attempts[sent - 1];
            answer == if last.Answered? && last.status < 400 then Response(last.status) else Raised
    ensures effects == CarriedOut(attempts[..sent])
    ensures !retry ==> effects <= 1
  {
    var maxAttempts := if retry then MAX_ATTEMPTS else 1;
    effects := 0;
    for attempt := 0 to maxAttempts
      invariant forall i | 0 <= i < attempt :: Transient(attempts[i]) && i < maxAttempts - 1
      invariant effects == CarriedOut(attempts[..attempt])
    {
      assert attempts[..attempt + 1][..attempt] == attempts[..attempt];
      if attempts[attempt].carriedOut {
        effects := effects + 1;
      }
      sent := attempt + 1;
      if attempts[attempt].ConnectionLost? {
        if attempt == maxAttempts - 1 {
          return Raised, sent, effects;
        }
      } else if !(Transient(attempts[attempt]) && attempt < maxAttempts - 1) {
        return AnswerOf(attempts[attempt]), sent, effects;
      }
    }
    assert false;
  }
}
