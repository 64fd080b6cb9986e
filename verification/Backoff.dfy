/** The retry schedule of src/jobs/retry-backoff.ts: one second, doubling per attempt, capped at five minutes. */
module Backoff {
  const BASE_MS := 1_000
  const CAP_MS := 300_000

  function Pow2(n: nat): (r: nat)
    ensures r >= 1
  {
    if n == 0 then 1 else 2 * Pow2(n - 1)
  }

  function NextRetryDelayMs(attempts: nat): (delay: nat)
    ensures BASE_MS <= delay <= CAP_MS
  {
    var uncapped := BASE_MS * Pow2(attempts);
    if uncapped < CAP_MS then uncapped else CAP_MS
  }

  // The delays in full: one second, two, four and so on up to four minutes sixteen, and five minutes from then on.
  lemma DelaysAre(attempts: nat)
    ensures NextRetryDelayMs(attempts)
         == match attempts
            case 0 => 1_000
            case 1 => 2_000
            case 2 => 4_000
            case 3 => 8_000
            case 4 => 16_000
            case 5 => 32_000
            case 6 => 64_000
            case 7 => 128_000
            case 8 => 256_000
            case _ => 300_000
  {
    if 9 <= attempts { DelayIsMonotoneAndCapped(attempts, attempts); }
    assert Pow2(4) == 16;
    assert Pow2(8) == 256;
  }

  // A later attempt never waits less than an earlier one, and the cap is reached exactly from the ninth retry on.
  lemma {:induction false} DelayIsMonotoneAndCapped(a: nat, b: nat)
    requires a <= b
    ensures NextRetryDelayMs(a) <= NextRetryDelayMs(b)
    ensures NextRetryDelayMs(a) == CAP_MS <==> 9 <= a
  {
    Pow2Monotone(a, b);
    if a <= 8 { Pow2Monotone(a, 8); } else { Pow2Monotone(9, a); }
    assert Pow2(4) == 16;
    assert Pow2(8) == 256;
  }

  lemma {:induction false} Pow2Monotone(a: nat, b: nat)
    requires a <= b
    ensures Pow2(a) <= Pow2(b)
  {
    if a < b { Pow2Monotone(a, b - 1); }
  }
}
