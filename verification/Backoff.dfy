/** The reconnect delay shared by the daemon's tunnel tasks and the standalone client. */
module Backoff {

  const MAX_DELAY := 30

  /** 2^n. */
  function Pow2(n: nat): (r: nat)
    ensures r > 0
  {
    if n == 0 then 1 else 2 * Pow2(n - 1)
  }

  const U64_SIZE := 0x1_0000_0000_0000_0000

  /** `2u64.pow(n)` in a release build, where it wraps. */
  function PowU64(n: nat): nat {
    Pow2(n) % U64_SIZE
  }

  function Min(a: nat, b: nat): nat {
    if a <= b then a else b
  }

  /** The delay in seconds before connect attempt number `attempt` + 1. */
  function Delay(attempt: nat): nat {
    if attempt == 0 then 0 else Min(PowU64(attempt - 1), MAX_DELAY)
  }

  lemma {:induction false} Pow2Mono(a: nat, b: nat)
    requires a <= b
    ensures Pow2(a) <= Pow2(b)
    decreases b
  {
    if a < b {
      Pow2Mono(a, b - 1);
    }
  }

  lemma {:induction false} Pow2Add(a: nat, b: nat)
    ensures Pow2(a + b) == Pow2(a) * Pow2(b)
    decreases b
  {
    if b > 0 {
      Pow2Add(a, b - 1);
      assert Pow2(a + b) == 2 * Pow2(a + (b - 1));
    }
  }

  lemma Pow2Of64()
    ensures Pow2(64) == U64_SIZE
  {
    assert Pow2(4) == 16;
    Pow2Add(4, 4);
    Pow2Add(8, 8);
    Pow2Add(16, 16);
    Pow2Add(32, 32);
  }

  /** The power does not overflow exactly up to the 64th consecutive failure. */
  lemma PowerFitsIff(n: nat)
    requires n >= 1
    ensures Pow2(n - 1) < U64_SIZE <==> n <= 64
  {
    Pow2Of64();
    if n <= 64 {
      Pow2Mono(n - 1, 63);
      assert Pow2(64) == 2 * Pow2(63);
    } else {
      Pow2Mono(64, n - 1);
    }
  }

  /** From the 65th consecutive failure on, the wrapped power is zero. */
  lemma WrappedPowerIsZero(n: nat)
    requires n >= 64
    ensures PowU64(n) == 0
  {
    Pow2Of64();
    Pow2Add(64, n - 64);
    MultipleMod(Pow2(n - 64));
  }

  lemma MultipleMod(k: nat)
    ensures (U64_SIZE * k) % U64_SIZE == 0
  {
  }

  /**
   The delay is the promised min(2^(n-1), 30) exactly for n <= 64; after that it is zero, so the loop
   reconnects without waiting.
   */
  lemma DelayIsCappedPowerIff(n: nat)
    requires n >= 1
    ensures Delay(n) == (if Pow2(n - 1) < 30 then Pow2(n - 1) else 30) <==> n <= 64
    ensures n > 64 ==> Delay(n) == 0
  {
    PowerFitsIff(n);
    if n > 64 {
      WrappedPowerIsZero(n - 1);
    } else {
      SmallRemainder(Pow2(n - 1));
    }
  }

  lemma SmallRemainder(k: nat)
    requires k < U64_SIZE
    ensures k % U64_SIZE == k
  {
  }

  /** Within that bound the delay is positive, at most 30 seconds and nondecreasing. */
  lemma DelayMonotone(a: nat, b: nat)
    requires 1 <= a <= b <= 64
    ensures 1 <= Delay(a) <= Delay(b) <= 30
  {
    DelayIsCappedPowerIff(a);
    DelayIsCappedPowerIff(b);
    Pow2Mono(a - 1, b - 1);
  }

  /** A wait, and hence a Reconnecting status, happens exactly after 1 to 64 consecutive failures. */
  lemma WaitsIff(n: nat)
    ensures Delay(n) > 0 <==> 1 <= n <= 64
  {
    if n >= 1 {
      DelayIsCappedPowerIff(n);
    }
  }
}
