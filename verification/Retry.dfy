/** The exponential backoff of the delivery loop. */
module Retry {
  import opened Types

  function Pow2(n: nat): nat { if n == 0 then 1 else 2 * Pow2(n - 1) }

  /** The delay after a failure of a row that had failed `attempts` times, without jitter. */
  function BaseDelay(attempts: nat): nat {
    Min(5_000 * Pow2(Min(attempts, 8)), 900_000)
  }

  /** Jitter adds at most a quarter. */
  predicate PossibleDelay(attempts: nat, delay: nat) {
    BaseDelay(attempts) <= delay <= BaseDelay(attempts) + BaseDelay(attempts) / 4
  }

  /** The least time that passes before the submission after `k` failures. */
  function Backoff(k: nat): nat {
    if k == 0 then 0 else Backoff(k - 1) + BaseDelay(k - 1)
  }

  lemma SmallPowers()
    ensures Pow2(0) == 1 && Pow2(1) == 2 && Pow2(2) == 4 && Pow2(3) == 8 && Pow2(4) == 16
    ensures Pow2(5) == 32 && Pow2(6) == 64 && Pow2(7) == 128 && Pow2(8) == 256
  {
    assert Pow2(2) == 4;
    assert Pow2(4) == 16;
    assert Pow2(6) == 64;
  }

  lemma BaseDelayBound(k: nat)
    ensures 5_000 <= BaseDelay(k) <= 900_000
  {
    SmallPowers();
    var e := Min(k, 8);
    assert e in {0, 1, 2, 3, 4, 5, 6, 7, 8};
  }

  /** The backoff doubles from five seconds up to fifteen minutes. */
  lemma {:induction false} BackoffClosedForm(k: nat)
    ensures Backoff(k) == if k <= 8 then 5_000 * (Pow2(k) - 1) else 1_275_000 + 900_000 * (k - 8)
  {
    SmallPowers();
    if k == 0 {
    } else {
      BackoffClosedForm(k - 1);
      if k <= 8 {
        assert Pow2(k) == 2 * Pow2(k - 1);
        assert k in {1, 2, 3, 4, 5, 6, 7, 8};
      }
    }
  }

  lemma {:induction false} BackoffGrows(j: nat, k: nat)
    requires j <= k
    ensures Backoff(j) <= Backoff(k)
    decreases k
  {
    if j < k {
      BackoffGrows(j, k - 1);
    }
  }

  /** With the default maximum age of a day there are at most 103 submissions, after 0 to 102 failures. */
  lemma DefaultSubmissions(k: nat)
    ensures Backoff(k) <= 86_400_000 <==> k < 103
  {
    BackoffClosedForm(k);
    SmallPowers();
    if k <= 8 {
      assert k in {0, 1, 2, 3, 4, 5, 6, 7, 8};
    }
  }
}
