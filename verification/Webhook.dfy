/** Delivery accounting of the webhook: any interleaving of producers and the worker. */
module Webhook {

  // --------------------------------------------------------------------- delivery

  /** What one delivery attempt meets. */
  datatype Attempt = BuildFails | RequestFails | NetworkError | Status(code: int)

  /** How a batch ends: delivered, counted as dropped, or neither. */
  datatype Outcome = Delivered | Dropped | Forgotten

  predicate Retryable(a: Attempt) {
    a.NetworkError? || (a.Status? && (a.code >= 500 || a.code == 429))
  }

  predicate IsSuccess(a: Attempt) {
    a.Status? && 200 <= a.code < 300
  }

  /** The outcome of the first attempt that is not retried, and Dropped when all are used up. */
  function OutcomeOf(a: Attempt): Outcome {
    if IsSuccess(a) then Delivered else if a.RequestFails? then Forgotten else Dropped
  }

  function NextBackoff(current: int, max: int): int {
    if current * 2 > max then max else current * 2
  }

  function Pow2(n: nat): (p: nat)
    ensures p >= 1
  {
    if n == 0 then 1 else 2 * Pow2(n - 1)
  }

  /** The sleep before retry `i` + 1: doubling, capped from the first doubling on. */
  function Sleep(initial: int, max: int, i: nat): int {
    if i == 0 || initial * Pow2(i) <= max then initial * Pow2(i) else max
  }

  lemma BackoffDoubles(initial: int, max: int, i: nat)
    requires initial > 0 && max > 0
    ensures NextBackoff(Sleep(initial, max, i), max) == Sleep(initial, max, i + 1)
  {
    var x := initial * Pow2(i);
    assert initial * Pow2(i + 1) == 2 * x;
    assert x >= 0 by { NonNegative(initial, Pow2(i)); }
  }

  lemma NonNegative(a: int, b: int)
    requires a >= 0 && b >= 0
    ensures a * b >= 0
  {
  }

  /** Of the attempts within the limit, the first that is not retried fails to build its request. */
  ghost predicate RequestFailsFirst(tries: int -> Attempt, maxAttempts: int) {
    exists k :: 1 <= k <= maxAttempts && tries(k).RequestFails? && forall j | 1 <= j < k :: Retryable(tries(j))
  }

  /** The retry loop; `tries(k)` is what attempt `k` meets. */
  method Deliver(tries: int -> Attempt, maxAttempts: int, initial: int, maxBackoff: int)
    returns (outcome: Outcome, attempts: nat, sleeps: seq<int>)
    requires maxAttempts >= 1 && initial > 0 && maxBackoff > 0
    ensures 1 <= attempts <= maxAttempts
    ensures forall k | 1 <= k < attempts :: Retryable(tries(k))
    ensures Retryable(tries(attempts)) ==> attempts == maxAttempts && outcome == Dropped
    ensures !Retryable(tries(attempts)) ==> outcome == OutcomeOf(tries(attempts))
    ensures outcome == Forgotten <==> RequestFailsFirst(tries, maxAttempts)
    ensures forall k | 1 <= k < attempts ::
              tries(k).NetworkError? || (tries(k).Status? && (tries(k).code >= 500 || tries(k).code == 429))
    ensures var last := tries(attempts);
            && (outcome == Delivered <==> last.Status? && 200 <= last.code < 300)
            && (outcome == Forgotten <==> last.RequestFails?)
            && (attempts < maxAttempts ==> last.BuildFails? || last.RequestFails? || (last.Status? && last.code < 500 && last.code != 429))
    ensures sleeps != [] ==> sleeps[0] == initial
    ensures forall i | 0 < i < |sleeps| :: sleeps[i] == if 2 * sleeps[i - 1] <= maxBackoff then 2 * sleeps[i - 1] else maxBackoff
    ensures |sleeps| == attempts - 1
    ensures forall i | 0 <= i < |sleeps| :: sleeps[i] == Sleep(initial, maxBackoff, i)
  {
    var backoff := initial;
    attempts, sleeps := 1, [];
    while attempts <= maxAttempts
      invariant 1 <= attempts <= maxAttempts
      invariant forall k | 1 <= k < attempts :: Retryable(tries(k))
      invariant |sleeps| == attempts - 1
      invariant forall i | 0 <= i < |sleeps| :: sleeps[i] == Sleep(initial, maxBackoff, i)
      invariant backoff == Sleep(initial, maxBackoff, attempts - 1)
      invariant if sleeps == [] then backoff == initial
                else sleeps[0] == initial && backoff == NextBackoff(sleeps[|sleeps| - 1], maxBackoff)
      invariant forall i | 0 < i < |sleeps| :: sleeps[i] == NextBackoff(sleeps[i - 1], maxBackoff)
      decreases maxAttempts - attempts
    {
      var a := tries(attempts);
      if a.BuildFails? {
        return Dropped, attempts, sleeps;
      }
      if a.RequestFails? {
        return Forgotten, attempts, sleeps;
      }
      if a.Status? && 200 <= a.code < 300 {
        return Delivered, attempts, sleeps;
      }
      if a.Status? && !(a.code >= 500 || a.code == 429) {
        return Dropped, attempts, sleeps;
      }
      if attempts == maxAttempts {
        return Dropped, attempts, sleeps;
      }
      sleeps := sleeps + [backoff];
      BackoffDoubles(initial, maxBackoff, attempts - 1);
      backoff := NextBackoff(backoff, maxBackoff);
      attempts := attempts + 1;
    }
    assert false;
  }
}
