/**
 The delay before a failed job runs again:

  - it doubles with every attempt, from a base to a cap, both from settings that are brought into range first;
  - jitter adds a share of it, drawn by the environment;
  - the sum is held to the cap once more, and cut to whole milliseconds.

 Numbers are exact.
 */
module Backoff {
  import opened Wrappers
  import opened Reals

  function Pow2(n: nat): (p: real)
    ensures p >= 1.0
  {
    if n == 0 then 1.0 else 2.0 * Pow2(n - 1)
  }

  datatype BackoffInput = BackoffInput(baseMs: Option<real>, capMs: Option<real>, jitterRatio: Option<real>)

  function BaseMs(input: BackoffInput): real
  {
    Max(100.0, if input.baseMs.Some? then input.baseMs.value else 2000.0)
  }

  function CapMs(input: BackoffInput): real
  {
    Max(BaseMs(input), if input.capMs.Some? then input.capMs.value else 600000.0)
  }

  function JitterRatio(input: BackoffInput): real
  {
    Min(0.9, Max(0.0, if input.jitterRatio.Some? then input.jitterRatio.value else 0.2))
  }

  function Core(input: BackoffInput, attempts: int): real
  {
    Min(CapMs(input), Product(BaseMs(input), Pow2(if attempts <= 1 then 0 else attempts - 1)))
  }

  function Jitter(input: BackoffInput, attempts: int, draw: real): real
  {
    Product(Product(Core(input, attempts), JitterRatio(input)), draw)
  }

  function CalculateBackoffMs(input: BackoffInput, attempts: int, draw: real): (delayMs: int)
  {
    Min(CapMs(input), Core(input, attempts) + Jitter(input, attempts, draw)).Floor
  }

  /** A share of none to nine tenths, a fifth if none is given; ten minutes and two seconds are the other defaults. */
  lemma SettingsInRange(input: BackoffInput)
    ensures input.jitterRatio.None? ==> JitterRatio(input) == 0.2
    ensures input.jitterRatio.Some? ==>
      var ratio := input.jitterRatio.value;
      JitterRatio(input) == if ratio < 0.0 then 0.0 else if ratio > 0.9 then 0.9 else ratio
    ensures input.baseMs.None? ==> BaseMs(input) == 2000.0
    ensures input.baseMs.Some? ==> BaseMs(input) == if input.baseMs.value < 100.0 then 100.0 else input.baseMs.value
    ensures var cap := if input.capMs.Some? then input.capMs.value else 600000.0;
      CapMs(input) == if cap < BaseMs(input) then BaseMs(input) else cap
  {
  }

  lemma JitterOf(core: real, ratio: real, draw: real)
    requires core >= 0.0 && 0.0 <= ratio <= 0.9 && 0.0 <= draw < 1.0
    ensures 0.0 <= Product(Product(core, ratio), draw) <= core * 0.9
  {
    NonNegativeProduct(core, ratio);
    Scale(core, ratio, 0.9);
    NonNegativeProduct(Product(core, ratio), draw);
    Scale(Product(core, ratio), draw, 1.0);
  }

  lemma AtLeast(base: real, cap: real, p: real)
    requires 0.0 <= base <= cap && p >= 1.0
    ensures base <= Min(cap, Product(base, p)) <= cap
  {
    Scale(base, 1.0, p);
  }

  lemma CoreBounds(input: BackoffInput, attempts: int)
    ensures BaseMs(input) <= Core(input, attempts) <= CapMs(input)
  {
    AtLeast(BaseMs(input), CapMs(input), Pow2(if attempts <= 1 then 0 else attempts - 1));
  }

  lemma JitterBounds(input: BackoffInput, attempts: int, draw: real)
    requires 0.0 <= draw < 1.0
    ensures 0.0 <= Jitter(input, attempts, draw) <= Core(input, attempts) * 0.9
  {
    CoreBounds(input, attempts);
    JitterOf(Core(input, attempts), JitterRatio(input), draw);
  }

  lemma DoubleMin(base: real, cap: real, p: real)
    requires 0.0 <= base <= cap && p >= 1.0
    ensures Min(cap, Product(base, 2.0 * p)) == cap
         || Min(cap, Product(base, 2.0 * p)) == 2.0 * Min(cap, Product(base, p))
  {
    assert Product(base, 2.0 * p) == 2.0 * Product(base, p);
    NonNegativeProduct(base, p);
  }

  /** Until the cap is reached, each attempt doubles the core. */
  lemma CoreDoubles(input: BackoffInput, attempts: int)
    requires attempts >= 1
    ensures Core(input, attempts + 1) == CapMs(input) || Core(input, attempts + 1) == 2.0 * Core(input, attempts)
  {
    DoubleMin(BaseMs(input), CapMs(input), Pow2(attempts - 1));
  }

  /** Every delay lies between the whole milliseconds of the base and the cap. */
  lemma BackoffWithinBounds(input: BackoffInput, attempts: int, draw: real)
    requires 0.0 <= draw < 1.0
    ensures BaseMs(input).Floor <= CalculateBackoffMs(input, attempts, draw) <= CapMs(input).Floor
    ensures CalculateBackoffMs(input, attempts, draw) as real <= CapMs(input)
  {
    CoreBounds(input, attempts);
    JitterBounds(input, attempts, draw);
    DelayBounds(BaseMs(input), CapMs(input), Core(input, attempts), Jitter(input, attempts, draw));
  }

  lemma DelayBounds(base: real, cap: real, core: real, jitter: real)
    requires base <= core <= cap && 0.0 <= jitter
    ensures base.Floor <= Min(cap, core + jitter).Floor <= cap.Floor
  {
  }

  /** From the first attempt on the delay never shrinks, whatever the two independent draws. */
  lemma BackoffNeverShrinks(input: BackoffInput, attempts: int, draw: real, nextDraw: real)
    requires attempts >= 1
    requires 0.0 <= draw < 1.0 && 0.0 <= nextDraw < 1.0
    ensures CalculateBackoffMs(input, attempts, draw) <= CalculateBackoffMs(input, attempts + 1, nextDraw)
  {
    CoreBounds(input, attempts);
    CoreDoubles(input, attempts);
    JitterBounds(input, attempts, draw);
    JitterBounds(input, attempts + 1, nextDraw);
    DelayGrows(CapMs(input), Core(input, attempts), Jitter(input, attempts, draw),
               Core(input, attempts + 1), Jitter(input, attempts + 1, nextDraw));
  }

  lemma DelayGrows(cap: real, core: real, jitter: real, nextCore: real, nextJitter: real)
    requires 0.0 <= core <= cap && jitter <= core * 0.9 && 0.0 <= nextJitter
    requires nextCore == cap || nextCore == 2.0 * core
    ensures Min(cap, core + jitter).Floor <= Min(cap, nextCore + nextJitter).Floor
  {
  }

  predicate NeverShrinks(input: BackoffInput, attempts: int, draw: real, nextDraw: real)
  {
    0.0 <= draw < 1.0 && 0.0 <= nextDraw < 1.0 ==>
      CalculateBackoffMs(input, attempts, draw) <= CalculateBackoffMs(input, attempts + 1, nextDraw)
  }

  /**
   Attempt counts below one share the first exponent, so there, and only there, the jitter alone can shrink
   the delay.
   */
  lemma NeverShrinksExactlyFromFirstAttempt(attempts: int)
    ensures attempts >= 1 <==> forall input, draw, nextDraw :: NeverShrinks(input, attempts, draw, nextDraw)
  {
    if attempts >= 1 {
      forall input, draw, nextDraw ensures NeverShrinks(input, attempts, draw, nextDraw) {
        if 0.0 <= draw < 1.0 && 0.0 <= nextDraw < 1.0 {
          BackoffNeverShrinks(input, attempts, draw, nextDraw);
        }
      }
    } else {
      var input := BackoffInput(None, None, None);
      assert Core(input, attempts) == Core(input, attempts + 1) == 2000.0;
      assert CalculateBackoffMs(input, attempts, 0.5) == 2200;
      assert CalculateBackoffMs(input, attempts + 1, 0.0) == 2000;
      assert !NeverShrinks(input, attempts, 0.5, 0.0);
    }
  }
}
