/** The retry delay of internal/retry: capped doubling on int64 nanoseconds. */
module Backoff {
  import opened Wrappers

  const MAX_INT64 := 0x7FFF_FFFF_FFFF_FFFF
  const TWO_64 := 0x1_0000_0000_0000_0000

  predicate IsInt64(x: int) { -MAX_INT64 - 1 <= x <= MAX_INT64 }

  /** Two's complement wrap-around of an int64 result. */
  function Wrap(x: int): (r: int)
    ensures IsInt64(r) && (IsInt64(x) ==> r == x)
    ensures exists k :: r == x + k * TWO_64
  {
    var r := (x + MAX_INT64 + 1) % TWO_64 - MAX_INT64 - 1;
    var k := -((x + MAX_INT64 + 1) / TWO_64);
    assert r == x + k * TWO_64;
    r
  }

  datatype Kind = Exponential | Fixed
  datatype Jitter = FullJitter | NoJitter

  datatype Policy = Policy(backoff: Kind, initial: int, maxDelay: int, jitter: Jitter) {
    predicate Valid() { IsInt64(initial) && IsInt64(maxDelay) }
  }

  function Pow2(n: nat): (p: nat)
    ensures p >= 1
  {
    if n == 0 then 1 else 2 * Pow2(n - 1)
  }

  function Min(a: int, b: int): int { if a < b then a else b }

  /** Doublings before attempt n: attempts below one count as the first. */
  function Doublings(attempt: int): nat { if attempt < 1 then 0 else attempt - 1 }

  /** The initial delay doubled n times. */
  function Doubled(initial: int, n: nat): int { initial * Pow2(n) }

  /** The delay before any jitter, without the int64 underneath. */
  function Ideal(p: Policy, attempt: int): int {
    var grown := if p.backoff.Fixed? then p.initial else Doubled(p.initial, Doublings(attempt));
    if p.maxDelay > 0 then Min(grown, p.maxDelay)
    else if p.backoff.Fixed? || attempt <= 1 then p.initial
    else 0
  }

  /** With a cap, the first retry waits the initial delay, each later one twice as long as the one before, and none beyond the cap. */
  lemma EachDoubles(p: Policy, attempt: int)
    requires p.initial >= 0 && p.maxDelay > 0
    ensures attempt <= 1 || p.backoff.Fixed? ==> Ideal(p, attempt) == if p.initial < p.maxDelay then p.initial else p.maxDelay
    ensures attempt >= 1 && !p.backoff.Fixed? ==>
      Ideal(p, attempt + 1) == if 2 * Ideal(p, attempt) < p.maxDelay then 2 * Ideal(p, attempt) else p.maxDelay
  {
    DoubledNext(p.initial, 0);
    if attempt >= 1 {
      var n: nat := attempt - 1;
      DoubledNext(p.initial, n);
    }
    hide Doubled;
  }

  lemma {:induction false} Pow2Grows(m: nat, n: nat)
    requires m <= n
    ensures Pow2(m) <= Pow2(n)
  {
    if m < n { Pow2Grows(m, n - 1); }
  }

  lemma TimesGrows(x: nat, a: nat, b: nat)
    requires a <= b
    ensures x * a <= x * b
  {
  }

  lemma DoubledGrows(initial: nat, m: nat, n: nat)
    requires m <= n
    ensures Doubled(initial, m) <= Doubled(initial, n)
  {
    Pow2Grows(m, n);
    TimesGrows(initial, Pow2(m), Pow2(n));
  }

  lemma DoubledNext(initial: int, n: nat)
    ensures Doubled(initial, n + 1) == 2 * Doubled(initial, n) && Doubled(initial, 0) == initial
  {
    assert Pow2(n + 1) == 2 * Pow2(n);
  }

  /**
   * Delay of the source with its wrapping doubling. rnd is the draw the jitter takes; the source panics
   * when the range it draws from does not fit an int64.
   */
  method Delay(p: Policy, attempt: int, rnd: nat) returns (d: Result<int, ()>)
    requires p.Valid() && p.initial >= 0
    ensures p.jitter.NoJitter? ==> d == Ok(Ideal(p, attempt))
    ensures p.jitter.FullJitter? ==> (d.Err? <==> Ideal(p, attempt) == MAX_INT64)
    ensures d.Ok? ==> 0 <= d.value <= Ideal(p, attempt) && IsInt64(d.value)
    ensures d.Ok? && p.jitter.FullJitter? && rnd <= Ideal(p, attempt) ==> d.value == rnd
  {
    hide Doubled, Pow2, Drawn;
    var n := if attempt < 1 then 1 else attempt;
    var base := p.initial;
    DoubledNext(p.initial, 0);
    if !p.backoff.Fixed? {
      var i := 1;
      while i < n
        invariant 1 <= i <= n
        invariant 0 <= base <= MAX_INT64
        invariant base == Doubled(p.initial, i - 1)
        invariant i > 1 ==> base < p.maxDelay
      {
        var next := Wrap(base * 2);
        DoubledNext(p.initial, i - 1);
        WrapsBelow(base);
        if next < base || next >= p.maxDelay {
          assert 2 * base >= p.maxDelay;
          DoubledGrows(p.initial, i, n - 1);
          base := p.maxDelay;
          break;
        }
        base := next;
        i := i + 1;
      }
      assert (base == p.maxDelay && p.maxDelay <= Doubled(p.initial, n - 1) && n > 1) || base == Doubled(p.initial, n - 1);
    }
    if p.maxDelay > 0 && base > p.maxDelay { base := p.maxDelay; }
    if base < 0 { base := 0; }
    assert base == Ideal(p, attempt);
    if p.jitter.NoJitter? { return Ok(base); }
    if Wrap(base + 1) <= 0 { return Err(()); }
    d := Ok(Drawn(rnd, base));
  }

  /** A number of the range 0..base. */
  function Drawn(rnd: nat, base: nat): (n: int)
    ensures 0 <= n <= base && (rnd <= base ==> n == rnd)
  {
    rnd % (base + 1)
  }

  /** A doubling that wraps shows as a smaller number. */
  lemma WrapsBelow(base: int)
    requires 0 <= base <= MAX_INT64
    ensures Wrap(base * 2) >= base <==> base * 2 <= MAX_INT64
    ensures base * 2 <= MAX_INT64 ==> Wrap(base * 2) == base * 2
  {
  }

  /**
   * With a cap, the delay grows with the attempt and settles on the cap. A policy whose cap is not
   * positive starts at its initial delay and drops to nothing, so it grows only when it starts at zero.
   */
  lemma GrowsExactlyWhen(p: Policy)
    requires p.Valid() && p.initial >= 0
    ensures (forall a: int, b: int :: a <= b ==> Ideal(p, a) <= Ideal(p, b)) <==>
      p.backoff.Fixed? || p.maxDelay > 0 || p.initial == 0
  {
    if p.backoff.Fixed? || p.maxDelay > 0 || p.initial == 0 {
      forall a: int, b: int | a <= b ensures Ideal(p, a) <= Ideal(p, b) {
        DoubledGrows(p.initial, Doublings(a), Doublings(b));
      }
    } else {
      assert Ideal(p, 1) > Ideal(p, 2);
    }
  }
}
