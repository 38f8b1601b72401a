/** Code verification on the lock, over an uninterpreted one-time-password function. */
module Totp {
  import opened Wrappers

  type Secret = seq<u8>

  /** The truncated HMAC of section 5.3 of RFC 4226, before reduction to six digits. */
  type Hotp = (Secret, nat) -> nat

  const STEP_SECONDS: nat := 30
  const CODE_SPACE: nat := 1_000_000

  /** The code of one time step; section 4.2 of RFC 6238. */
  function CodeOfStep(hotp: Hotp, secret: Secret, counter: nat): nat {
    hotp(secret, counter) % CODE_SPACE
  }

  function TotpCustom(hotp: Hotp, secret: Secret, time: u64): nat {
    CodeOfStep(hotp, secret, time / STEP_SECONDS)
  }

  function SaturatingAddSigned(now: u64, delta: int): u64 {
    if now + delta < 0 then 0 else if now + delta > U64_MAX then U64_MAX else now + delta
  }

  function DigitsToValue(digits: seq<u8>): nat {
    if digits == [] then 0 else DigitsToValue(digits[..|digits| - 1]) * 10 + digits[|digits| - 1]
  }

  /** The interval of counters within `skew` steps of `now`, cut off at both ends of the clock. */
  predicate InWindow(now: u64, skew: u8, counter: int) {
    && 0 <= counter <= U64_MAX / STEP_SECONDS
    && now / STEP_SECONDS - skew <= counter <= now / STEP_SECONDS + skew
  }

  /** Some counter in the window has the entered value as its code. */
  ghost predicate Accepts(hotp: Hotp, secret: Secret, entered: seq<u8>, now: u64, skew: u8) {
    exists counter: nat :: InWindow(now, skew, counter) && CodeOfStep(hotp, secret, counter) == DigitsToValue(entered)
  }

  /** Shifting by whole steps shifts the counter by as much, unless the clock saturates. */
  lemma ShiftedCounter(now: u64, k: int)
    ensures SaturatingAddSigned(now, k * STEP_SECONDS) / STEP_SECONDS ==
      if now / STEP_SECONDS + k < 0 then 0
      else if now / STEP_SECONDS + k > U64_MAX / STEP_SECONDS then U64_MAX / STEP_SECONDS
      else now / STEP_SECONDS + k
  {
    assert (now + k * STEP_SECONDS) / STEP_SECONDS == now / STEP_SECONDS + k;
  }

  /** Some iteration of the saturating loop computes the code of `counter`. */
  ghost predicate Tries(now: u64, skew: u8, counter: int) {
    exists k: int :: -(skew as int) <= k <= skew && SaturatingAddSigned(now, k * STEP_SECONDS) / STEP_SECONDS == counter
  }

  /** The saturating loop tries exactly the counters of the window. */
  lemma TriedIffInWindow(now: u64, skew: u8, counter: int)
    ensures Tries(now, skew, counter) <==> InWindow(now, skew, counter)
  {
    var base := now / STEP_SECONDS;
    if InWindow(now, skew, counter) {
      ShiftedCounter(now, counter - base);
      assert SaturatingAddSigned(now, (counter - base) * STEP_SECONDS) / STEP_SECONDS == counter;
    }
    forall k: int | -(skew as int) <= k <= skew && SaturatingAddSigned(now, k * STEP_SECONDS) / STEP_SECONDS == counter
      ensures InWindow(now, skew, counter)
    {
      ShiftedCounter(now, k);
    }
  }

  lemma PlusOneDigit(digits: seq<u8>, n: nat)
    requires n < |digits|
    ensures DigitsToValue(digits[..n + 1]) == DigitsToValue(digits[..n]) * 10 + digits[n]
  {
    assert digits[..n + 1][..n] == digits[..n];
  }

  /** The digits of a code, most significant first. */
  lemma ValueIsDecimal(digits: seq<u8>)
    requires |digits| == 6
    ensures DigitsToValue(digits) == 100_000 * (digits[0] as nat) + 10_000 * (digits[1] as nat) +
      1_000 * (digits[2] as nat) + 100 * (digits[3] as nat) + 10 * (digits[4] as nat) + (digits[5] as nat)
  {
    PlusOneDigit(digits, 0);
    PlusOneDigit(digits, 1);
    PlusOneDigit(digits, 2);
    PlusOneDigit(digits, 3);
    PlusOneDigit(digits, 4);
    PlusOneDigit(digits, 5);
    assert digits[..6] == digits;
  }

  /**
   * In plain numbers: acceptance is that the last six decimal digits of the library's value, at some
   * 30-second counter within the skew of now and of the clock's range, are the entered ones.
   */
  lemma AcceptsInPlainNumbers(hotp: Hotp, secret: Secret, entered: seq<u8>, now: u64, skew: u8)
    ensures Accepts(hotp, secret, entered, now, skew) <==>
      exists counter: nat ::
        && hotp(secret, counter) % 1_000_000 == DigitsToValue(entered)
        && now / 30 - skew <= counter <= now / 30 + skew && counter <= 0xFFFF_FFFF_FFFF_FFFF / 30
  {
    assert forall counter: nat :: CodeOfStep(hotp, secret, counter) == hotp(secret, counter) % 1_000_000;
  }

  method Matches(hotp: Hotp, secret: Secret, entered: seq<u8>, now: u64, skew: u8) returns (matched: bool)
    requires |entered| == 6
    ensures matched <==> Accepts(hotp, secret, entered, now, skew)
    ensures matched <==>
      exists counter: nat ::
        && hotp(secret, counter) % 1_000_000 == DigitsToValue(entered)
        && now / 30 - skew <= counter <= now / 30 + skew && counter <= 0xFFFF_FFFF_FFFF_FFFF / 30
  {
    AcceptsInPlainNumbers(hotp, secret, entered, now, skew);
    var enteredValue := DigitsToValue(entered);
    for k := -(skew as int) to skew + 1
      invariant forall j :: -(skew as int) <= j < k ==>
        TotpCustom(hotp, secret, SaturatingAddSigned(now, j * STEP_SECONDS)) != enteredValue
    {
      var candidateTime := SaturatingAddSigned(now, k * STEP_SECONDS);
      if TotpCustom(hotp, secret, candidateTime) == enteredValue {
        TriedIffInWindow(now, skew, candidateTime / STEP_SECONDS);
        return true;
      }
    }
    forall counter: nat | InWindow(now, skew, counter) ensures CodeOfStep(hotp, secret, counter) != enteredValue {
      TriedIffInWindow(now, skew, counter);
    }
    return false;
  }

  // ---------------------------------------------------------------- digits and values

  /** The n low decimal digits of v, most significant first. */
  function ToDigits(v: nat, n: nat): seq<u8> {
    if n == 0 then [] else ToDigits(v / 10, n - 1) + [v % 10]
  }

  function Pow10(n: nat): nat {
    if n == 0 then 1 else 10 * Pow10(n - 1)
  }

  predicate Decimal(digits: seq<u8>) {
    forall i :: 0 <= i < |digits| ==> digits[i] < 10
  }

  lemma {:induction false} ToDigitsDecimal(v: nat, n: nat)
    ensures |ToDigits(v, n)| == n && Decimal(ToDigits(v, n))
  {
    if n > 0 {
      ToDigitsDecimal(v / 10, n - 1);
    }
  }

  /** No fold step leaves 32 bits, whatever bytes are in the buffer. */
  lemma {:induction false} ValueFitsU32(digits: seq<u8>, n: nat)
    requires n <= |digits| == 6
    ensures DigitsToValue(digits[..n]) * 9 <= 255 * (Pow10(n) - 1)
    ensures DigitsToValue(digits[..n]) <= U32_MAX
  {
    if n > 0 {
      ValueFitsU32(digits, n - 1);
      assert digits[..n][..n - 1] == digits[..n - 1];
    }
    assert Pow10(n) <= 1_000_000 by { Pow10Small(n); }
  }

  lemma Pow10Small(n: nat)
    requires n <= 6
    ensures Pow10(n) <= Pow10(6) == 1_000_000
  {
    assert Pow10(3) == 1000;
    assert Pow10(4) == 10_000;
    assert Pow10(5) == 100_000;
  }

  /** Zero-padded rendering and the fold are inverse, so padding never changes the value. */
  lemma {:induction false} ValueOfToDigits(v: nat, n: nat)
    requires v < Pow10(n)
    ensures DigitsToValue(ToDigits(v, n)) == v
  {
    if n > 0 {
      ValueOfToDigits(v / 10, n - 1);
      assert ToDigits(v, n)[..|ToDigits(v, n)| - 1] == ToDigits(v / 10, n - 1);
    }
  }

  lemma {:induction false} ToDigitsOfValue(digits: seq<u8>)
    requires Decimal(digits)
    ensures ToDigits(DigitsToValue(digits), |digits|) == digits
  {
    if digits != [] {
      var init, last := digits[..|digits| - 1], digits[|digits| - 1];
      ToDigitsOfValue(init);
      var v := DigitsToValue(digits);
      assert v == DigitsToValue(init) * 10 + last;
      assert v / 10 == DigitsToValue(init) && v % 10 == last;
      assert digits == init + [last];
    }
  }

  /** Different decimal entries never collide. */
  lemma ValueInjective(xs: seq<u8>, ys: seq<u8>)
    requires |xs| == |ys| && Decimal(xs) && Decimal(ys) && DigitsToValue(xs) == DigitsToValue(ys)
    ensures xs == ys
  {
    ToDigitsOfValue(xs);
    ToDigitsOfValue(ys);
  }
}
