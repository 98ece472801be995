// Exponential retry delays shared by the delivery workers.
module Backoff {

  // Attempts are counted from one.
  type Attempt = n: nat | n >= 1 witness 1

  function Pow2(n: nat): (p: nat)
    ensures p >= 1
  {
    if n == 0 then 1 else 2 * Pow2(n - 1)
  }

  // Five seconds doubled for every earlier attempt, at most `doublings` times.
  function Delay(attempts: Attempt, doublings: nat): nat {
    5 * Pow2(if attempts - 1 < doublings then attempts - 1 else doublings)
  }

  lemma {:induction false} Pow2Grows(m: nat, n: nat)
    requires m <= n
    ensures Pow2(m) <= Pow2(n)
    decreases n
  {
    if m < n {
      Pow2Grows(m, n - 1);
    }
  }

  lemma DelayGrows(m: Attempt, n: Attempt, doublings: nat)
    requires m <= n
    ensures 5 <= Delay(m, doublings) <= Delay(n, doublings) <= 5 * Pow2(doublings)
  {
    var i, j := if m - 1 < doublings then m - 1 else doublings, if n - 1 < doublings then n - 1 else doublings;
    Pow2Grows(0, i);
    Pow2Grows(i, j);
    Pow2Grows(j, doublings);
  }

  // The first delay is five seconds; each next one doubles until the limit is reached.
  lemma DelayDoubles(n: Attempt, doublings: nat)
    ensures Delay(1, doublings) == 5
    ensures Delay(n + 1, doublings) == if n <= doublings then 2 * Delay(n, doublings) else Delay(n, doublings)
  {
  }
}
