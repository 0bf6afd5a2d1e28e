/** The bounded retry loop shared by the two downloaders: up to
    `RETRY_ATTEMPTS` attempts, stopping after the first that does not
    raise; when all of them raise, the loop gives up without raising. */
module Retry {

  const RETRY_ATTEMPTS: nat := 3

  /** The number of attempts made from attempt `k` on, counting those
      before `k`. */
  function Tries<R>(attempt: nat -> R, raised: R -> bool, k: nat): nat
    requires k < RETRY_ATTEMPTS
    decreases RETRY_ATTEMPTS - k
  {
    if !raised(attempt(k)) || k == RETRY_ATTEMPTS - 1 then k + 1 else Tries(attempt, raised, k + 1)
  }

  /** The number of attempts the loop makes. */
  function AttemptsMade<R>(attempt: nat -> R, raised: R -> bool): nat {
    Tries(attempt, raised, 0)
  }

  /** Characterisation of `AttemptsMade`: between one and three attempts;
      every attempt but the last raised; and the last is the third or did
      not raise. */
  lemma {:induction false} AttemptsMadeSpec<R>(attempt: nat -> R, raised: R -> bool, n: nat)
    ensures n == AttemptsMade(attempt, raised) <==>
              1 <= n <= RETRY_ATTEMPTS
              && (forall j :: 0 <= j < n - 1 ==> raised(attempt(j)))
              && (n < RETRY_ATTEMPTS ==> !raised(attempt(n - 1)))
  {
  }

  /** `download_with_retries`: `attempt(k)` is what attempt `k` does and
      `raised` tells whether it raised. Returns the number of attempts made
      and the outcome of the last one. */
  method WithRetries<R>(attempt: nat -> R, raised: R -> bool) returns (tried: nat, last: R)
    ensures tried == AttemptsMade(attempt, raised)
    ensures last == attempt(tried - 1)
  {
    tried := 0;
    while true
      invariant tried < RETRY_ATTEMPTS
      invariant forall j :: 0 <= j < tried ==> raised(attempt(j))
      invariant AttemptsMade(attempt, raised) == Tries(attempt, raised, tried)
      decreases RETRY_ATTEMPTS - tried
    {
      last := attempt(tried);
      tried := tried + 1;
      if !raised(last) || tried == RETRY_ATTEMPTS {
        return;
      }
    }
  }
}
