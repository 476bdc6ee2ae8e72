/**
  Exponential backoff with jitter, in exact rationals.  The first two bytes of the SHA-256
  digest are any number up to 65535.
*/
module Retry {

  const DIGEST_MAXIMUM: nat := 65535

  function Min(a: int, b: int): int {
    if a <= b then a else b
  }

  function Max(a: int, b: int): int {
    if a >= b then a else b
  }

  function Pow2(n: nat): nat {
    if n == 0 then 1 else 2 * Pow2(n - 1)
  }

  // Math.round: halves go up.
  function Round(x: real): int {
    (x + 0.5).Floor
  }

  function Exponent(attempts: int): nat {
    Max(0, Min(attempts - 1, 20))
  }

  function Uncapped(baseSeconds: nat, exponent: nat): nat {
    baseSeconds * Pow2(exponent)
  }

  function Exponential(attempts: int, baseSeconds: nat, maximumSeconds: nat): int {
    Min(maximumSeconds, Uncapped(baseSeconds, Exponent(attempts)))
  }

  function Jitter(digest: nat): real {
    0.8 + (digest as real / 65535.0) * 0.4
  }

  function Times(x: real, y: real): real {
    x * y
  }

  function Jittered(seconds: int, digest: nat): real {
    Times(seconds as real, Jitter(digest))
  }

  function Clamp(delay: real, maximumSeconds: nat): int {
    Max(1, Min(maximumSeconds, Round(delay)))
  }

  function DelaySeconds(attempts: int, baseSeconds: nat, maximumSeconds: nat, digest: nat): int {
    Clamp(Jittered(Exponential(attempts, baseSeconds, maximumSeconds), digest), maximumSeconds)
  }

  // In microseconds, as the clocks of the tables count.
  function NextAttemptAt(now: int, delaySeconds: int): int {
    now + delaySeconds * 1_000_000
  }

  lemma JitterRange(digest: nat)
    requires digest <= DIGEST_MAXIMUM
    ensures 0.8 <= Jitter(digest) <= 1.2
  {
    var x := digest as real / 65535.0;
    assert 0.0 <= x <= 1.0;
  }

  lemma Doubling(baseSeconds: nat, exponent: nat)
    ensures Uncapped(baseSeconds, exponent + 1) == 2 * Uncapped(baseSeconds, exponent)
  {
    calc {
      Uncapped(baseSeconds, exponent + 1);
      baseSeconds * (2 * Pow2(exponent));
      2 * (baseSeconds * Pow2(exponent));
    }
  }

  lemma JitteredRange(seconds: nat, digest: nat)
    requires digest <= DIGEST_MAXIMUM
    ensures seconds as real * 0.8 <= Jittered(seconds, digest) <= seconds as real * 1.2
  {
    JitterRange(digest);
    Scale(seconds as real, Jitter(digest));
  }

  lemma Scale(x: real, j: real)
    requires 0.0 <= x && 0.8 <= j <= 1.2
    ensures x * 0.8 <= Times(x, j) <= x * 1.2
  {
  }

  lemma ClampIsMonotone(x: real, y: real, maximumSeconds: nat)
    requires x <= y
    ensures Clamp(x, maximumSeconds) <= Clamp(y, maximumSeconds)
  {
  }

  // A delay lies between the delays at the two ends of the jitter range.
  lemma DelayRange(attempts: int, baseSeconds: nat, maximumSeconds: nat, digest: nat)
    requires digest <= DIGEST_MAXIMUM
    ensures var e := Exponential(attempts, baseSeconds, maximumSeconds);
            Clamp(e as real * 0.8, maximumSeconds)
            <= DelaySeconds(attempts, baseSeconds, maximumSeconds, digest)
            <= Clamp(e as real * 1.2, maximumSeconds)
  {
    var e := Exponential(attempts, baseSeconds, maximumSeconds);
    JitteredRange(e, digest);
    ClampIsMonotone(e as real * 0.8, Jittered(e, digest), maximumSeconds);
    ClampIsMonotone(Jittered(e, digest), e as real * 1.2, maximumSeconds);
  }

  lemma DelayIsBounded(attempts: int, baseSeconds: nat, maximumSeconds: nat, digest: nat)
    requires maximumSeconds >= 1
    ensures 1 <= DelaySeconds(attempts, baseSeconds, maximumSeconds, digest) <= maximumSeconds
  {
  }

  predicate GrowsByHalf(attempts: int, baseSeconds: nat, maximumSeconds: nat) {
    3 * Exponential(attempts, baseSeconds, maximumSeconds) <= 2 * Exponential(attempts + 1, baseSeconds, maximumSeconds)
  }

  lemma DoublingGrowsByHalf(attempts: int, baseSeconds: nat, maximumSeconds: nat)
    requires 1 <= attempts <= 20 && 2 * Uncapped(baseSeconds, Exponent(attempts)) <= maximumSeconds
    ensures GrowsByHalf(attempts, baseSeconds, maximumSeconds)
  {
    Doubling(baseSeconds, Exponent(attempts));
    assert Exponent(attempts + 1) == Exponent(attempts) + 1;
  }

  /** Whatever the digests, the next delay is no shorter while the capped exponential still
      grows by half; in particular while the doubled exponential stays under the cap. */
  lemma DelaysDoNotShrink(attempts: int, baseSeconds: nat, maximumSeconds: nat, digest: nat, nextDigest: nat)
    requires digest <= DIGEST_MAXIMUM && nextDigest <= DIGEST_MAXIMUM
    requires
      || GrowsByHalf(attempts, baseSeconds, maximumSeconds)
      || (1 <= attempts <= 20 && 2 * Uncapped(baseSeconds, Exponent(attempts)) <= maximumSeconds)
    ensures DelaySeconds(attempts, baseSeconds, maximumSeconds, digest) <=
            DelaySeconds(attempts + 1, baseSeconds, maximumSeconds, nextDigest)
  {
    if !GrowsByHalf(attempts, baseSeconds, maximumSeconds) {
      DoublingGrowsByHalf(attempts, baseSeconds, maximumSeconds);
    }
    DelayRange(attempts, baseSeconds, maximumSeconds, digest);
    DelayRange(attempts + 1, baseSeconds, maximumSeconds, nextDigest);
    var e := Exponential(attempts, baseSeconds, maximumSeconds);
    var next := Exponential(attempts + 1, baseSeconds, maximumSeconds);
    ClampIsMonotone(e as real * 1.2, next as real * 0.8, maximumSeconds);
  }

  predicate InOrder(attempts: int, baseSeconds: nat, maximumSeconds: nat, digest: nat, nextDigest: nat) {
    digest <= DIGEST_MAXIMUM && nextDigest <= DIGEST_MAXIMUM ==>
      DelaySeconds(attempts, baseSeconds, maximumSeconds, digest) <=
      DelaySeconds(attempts + 1, baseSeconds, maximumSeconds, nextDigest)
  }

  // Whatever the digests, the next delay is no shorter.
  ghost predicate KeepsOrder(attempts: int, baseSeconds: nat, maximumSeconds: nat) {
    forall digest: nat, nextDigest: nat :: InOrder(attempts, baseSeconds, maximumSeconds, digest, nextDigest)
  }

  // The delays at the two ends of the jitter range.
  function Longest(attempts: int, baseSeconds: nat, maximumSeconds: nat): int {
    Clamp(Exponential(attempts, baseSeconds, maximumSeconds) as real * 1.2, maximumSeconds)
  }

  function Shortest(attempts: int, baseSeconds: nat, maximumSeconds: nat): int {
    Clamp(Exponential(attempts, baseSeconds, maximumSeconds) as real * 0.8, maximumSeconds)
  }

  lemma EndsAreReached(attempts: int, baseSeconds: nat, maximumSeconds: nat)
    ensures DelaySeconds(attempts, baseSeconds, maximumSeconds, DIGEST_MAXIMUM) ==
            Longest(attempts, baseSeconds, maximumSeconds)
    ensures DelaySeconds(attempts, baseSeconds, maximumSeconds, 0) == Shortest(attempts, baseSeconds, maximumSeconds)
  {
    assert Jitter(DIGEST_MAXIMUM) == 1.2 && Jitter(0) == 0.8;
  }

  /** For every attempt, base and cap: delays keep their order exactly when the longest delay of
      the attempt is no longer than the shortest of the next. */
  lemma DelaysKeepOrderExactlyWhen(attempts: int, baseSeconds: nat, maximumSeconds: nat)
    ensures KeepsOrder(attempts, baseSeconds, maximumSeconds) <==>
            Longest(attempts, baseSeconds, maximumSeconds) <= Shortest(attempts + 1, baseSeconds, maximumSeconds)
  {
    EndsAreReached(attempts, baseSeconds, maximumSeconds);
    EndsAreReached(attempts + 1, baseSeconds, maximumSeconds);
    if KeepsOrder(attempts, baseSeconds, maximumSeconds) {
      assert InOrder(attempts, baseSeconds, maximumSeconds, DIGEST_MAXIMUM, 0);
    } else {
      var d, d' :| !InOrder(attempts, baseSeconds, maximumSeconds, d, d');
      DelayRange(attempts, baseSeconds, maximumSeconds, d);
      DelayRange(attempts + 1, baseSeconds, maximumSeconds, d');
    }
  }

  /** At the cap delays keep their order exactly while the cap is at most two seconds. */
  lemma DelaysShrinkAtTheCap(attempts: int, baseSeconds: nat, maximumSeconds: nat)
    requires maximumSeconds >= 1
    requires Exponential(attempts, baseSeconds, maximumSeconds) == maximumSeconds
    requires Exponential(attempts + 1, baseSeconds, maximumSeconds) == maximumSeconds
    ensures KeepsOrder(attempts, baseSeconds, maximumSeconds) <==> maximumSeconds <= 2
  {
    DelaysKeepOrderExactlyWhen(attempts, baseSeconds, maximumSeconds);
  }

  /** With the default base of 5 and cap of 3600 seconds the delays keep their order up to the
      ninth attempt, and not from the tenth on, whose exponential is not yet at the cap. */
  lemma DefaultDelaysShrinkFromTheTenth(attempts: int)
    requires attempts >= 1
    ensures KeepsOrder(attempts, 5, 3600) <==> attempts < 10
  {
    DelaysKeepOrderExactlyWhen(attempts, 5, 3600);
    PowersOfTwo();
    if attempts >= 11 {
      PowerGrows(Exponent(attempts), 10);
      PowerGrows(Exponent(attempts + 1), 10);
    }
  }

  lemma PowersOfTwo()
    ensures Pow2(0) == 1 && Pow2(1) == 2 && Pow2(2) == 4 && Pow2(3) == 8 && Pow2(4) == 16 && Pow2(5) == 32
    ensures Pow2(6) == 64 && Pow2(7) == 128 && Pow2(8) == 256 && Pow2(9) == 512 && Pow2(10) == 1024
  {
  }

  lemma {:induction false} PowerGrows(n: nat, m: nat)
    requires n >= m
    ensures Pow2(n) >= Pow2(m)
  {
    if n > m {
      PowerGrows(n - 1, m);
    }
  }

  // The waiting time before attempt n + 1, given each attempt's digest.
  function TotalDelay(digests: seq<nat>, baseSeconds: nat, maximumSeconds: nat): int {
    if digests == [] then 0
    else
      var n := |digests|;
      TotalDelay(digests[..n - 1], baseSeconds, maximumSeconds) +
      DelaySeconds(n, baseSeconds, maximumSeconds, digests[n - 1])
  }

  /** The first n uncapped delays add up to at least 4/5 of the ideal geometric sum, less half
      a second of rounding each. */
  lemma {:induction false} TotalDelayGrowsGeometrically(digests: seq<nat>, baseSeconds: nat, maximumSeconds: nat)
    requires forall i :: 0 <= i < |digests| ==> digests[i] <= DIGEST_MAXIMUM
    requires |digests| <= 21
    requires digests != [] ==> Uncapped(baseSeconds, |digests| - 1) <= maximumSeconds
    ensures TotalDelay(digests, baseSeconds, maximumSeconds) as real >=
            0.8 * (Uncapped(baseSeconds, |digests|) - baseSeconds) as real - |digests| as real / 2.0
  {
    var n := |digests|;
    if n > 0 {
      var shorter, last := digests[..n - 1], digests[n - 1];
      if n > 1 {
        Doubling(baseSeconds, n - 2);
      }
      Doubling(baseSeconds, n - 1);
      TotalDelayGrowsGeometrically(shorter, baseSeconds, maximumSeconds);
      var d := DelaySeconds(n, baseSeconds, maximumSeconds, last);
      UncappedDelay(n, baseSeconds, maximumSeconds, last);
      assert TotalDelay(digests, baseSeconds, maximumSeconds) == TotalDelay(shorter, baseSeconds, maximumSeconds) + d;
      hide *;
      OneMoreDelay(TotalDelay(shorter, baseSeconds, maximumSeconds), d, Uncapped(baseSeconds, n - 1), baseSeconds, n);
    }
  }

  lemma UncappedDelay(n: nat, baseSeconds: nat, maximumSeconds: nat, digest: nat)
    requires 1 <= n <= 21 && digest <= DIGEST_MAXIMUM && Uncapped(baseSeconds, n - 1) <= maximumSeconds
    ensures DelaySeconds(n, baseSeconds, maximumSeconds, digest) as real >=
            0.8 * Uncapped(baseSeconds, n - 1) as real - 0.5
  {
    DelayRange(n, baseSeconds, maximumSeconds, digest);
    assert Exponential(n, baseSeconds, maximumSeconds) == Uncapped(baseSeconds, n - 1);
  }

  lemma OneMoreDelay(total: int, delay: int, uncapped: nat, baseSeconds: nat, n: nat)
    requires total as real >= 0.8 * (uncapped - baseSeconds) as real - (n - 1) as real / 2.0
    requires delay as real >= 0.8 * uncapped as real - 0.5
    ensures (total + delay) as real >= 0.8 * (2 * uncapped - baseSeconds) as real - n as real / 2.0
  {
  }

  // ------------------------------------------------------------------ what the callers need

  // The base, doubled for every attempt after the first, up to twenty times.
  function Doubled(attempts: nat, baseSeconds: nat): nat {
    if attempts <= 1 then baseSeconds
    else if attempts > 21 then Doubled(attempts - 1, baseSeconds)
    else 2 * Doubled(attempts - 1, baseSeconds)
  }

  // At least one second and at most the cap; the doubled base or the cap, give or take a fifth and
  // half a second of rounding.
  predicate InBand(delay: int, attempts: nat, baseSeconds: nat, maximumSeconds: nat) {
    var doubled := Doubled(attempts, baseSeconds);
    var ideal := if doubled <= maximumSeconds then doubled else maximumSeconds;
    && (1 <= delay <= maximumSeconds || delay == 1)
    && 0.8 * ideal as real - 0.5 <= delay as real
    && (delay == 1 || delay as real <= 1.2 * ideal as real + 0.5)
  }

  // A number of whole seconds in that band after now, in microseconds.
  ghost predicate IsBackedOff(now: int, at: int, attempts: nat, baseSeconds: nat, maximumSeconds: nat) {
    exists delay: int :: at - now == delay * 1_000_000 && InBand(delay, attempts, baseSeconds, maximumSeconds)
  }

  lemma {:induction false} DoubledIsUncapped(attempts: nat, baseSeconds: nat)
    ensures Doubled(attempts, baseSeconds) == Uncapped(baseSeconds, Exponent(attempts))
  {
    if attempts > 21 {
      DoubledIsUncapped(attempts - 1, baseSeconds);
      assert Exponent(attempts - 1) == Exponent(attempts) == 20;
    } else if attempts > 1 {
      DoubledIsUncapped(attempts - 1, baseSeconds);
      assert Exponent(attempts) == Exponent(attempts - 1) + 1;
      Doubling(baseSeconds, Exponent(attempts - 1));
    }
  }

  /** The time of the next attempt lies one backoff after now, for every attempt, base, cap and
      digest. */
  lemma NextAttemptIsBackedOff(now: int, attempts: nat, baseSeconds: nat, maximumSeconds: nat, digest: nat)
    requires digest <= DIGEST_MAXIMUM
    ensures IsBackedOff(now, NextAttemptAt(now, DelaySeconds(attempts, baseSeconds, maximumSeconds, digest)), attempts,
                        baseSeconds, maximumSeconds)
  {
    var delay := DelaySeconds(attempts, baseSeconds, maximumSeconds, digest);
    DelayRange(attempts, baseSeconds, maximumSeconds, digest);
    DoubledIsUncapped(attempts, baseSeconds);
    ClampBand(Exponential(attempts, baseSeconds, maximumSeconds), maximumSeconds);
    assert InBand(delay, attempts, baseSeconds, maximumSeconds);
    assert NextAttemptAt(now, delay) - now == delay * 1_000_000;
  }

  lemma ClampBand(e: int, maximumSeconds: nat)
    requires 0 <= e <= maximumSeconds
    ensures Clamp(e as real * 0.8, maximumSeconds) as real >= 0.8 * e as real - 0.5
    ensures Clamp(e as real * 1.2, maximumSeconds) as real <= 1.2 * e as real + 0.5 ||
            Clamp(e as real * 1.2, maximumSeconds) == 1
  {
  }

  /** The jitter rises evenly from 4/5 for the lowest digest to 6/5 for the highest. */
  lemma JitterIsEven(digest: nat)
    requires digest < DIGEST_MAXIMUM
    ensures Jitter(0) == 0.8 && Jitter(DIGEST_MAXIMUM) == 1.2
    ensures (Jitter(digest + 1) - Jitter(digest)) * DIGEST_MAXIMUM as real == 0.4
  {
    assert (digest + 1) as real / 65535.0 - digest as real / 65535.0 == 1.0 / 65535.0;
  }

  /** A delay is the jittered exponential in whole seconds, the nearest with halves up, unless that
      leaves the range from one second to the cap. */
  lemma DelayIsNearest(attempts: nat, baseSeconds: nat, maximumSeconds: nat, digest: nat)
    requires digest <= DIGEST_MAXIMUM && maximumSeconds >= 1
    ensures var doubled := Doubled(attempts, baseSeconds);
            var exact := Times(if doubled <= maximumSeconds then doubled as real else maximumSeconds as real,
                               0.8 + 0.4 * (digest as real / 65535.0));
            var delay := DelaySeconds(attempts, baseSeconds, maximumSeconds, digest);
            && (0.5 <= exact < maximumSeconds as real + 0.5 ==> exact - 0.5 < delay as real <= exact + 0.5)
            && (exact < 0.5 ==> delay == 1) && (exact >= maximumSeconds as real + 0.5 ==> delay == maximumSeconds)
  {
    hide Times, Doubled;
    DoubledIsUncapped(attempts, baseSeconds);
  }
}
