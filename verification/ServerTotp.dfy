/** The server's side of the code, and its agreement with the lock. */
module ServerTotp {
  import opened Wrappers
  import opened Totp

  datatype GeneratedPin = GeneratedPin(pin: string, validForSeconds: nat)

  datatype GenerateError = InvalidParameters

  /** The generator library: which secrets its builder accepts, and its one-time-password function. */
  datatype Library = Library(acceptsSecret: Secret -> bool, hotp: Hotp)

  function DigitChar(d: u8): char
    requires d < 10
  {
    '0' + d as char
  }

  function Render(digits: seq<u8>): string
    requires Decimal(digits)
  {
    seq(|digits|, i requires 0 <= i < |digits| => DigitChar(digits[i]))
  }

  function GenerateAt(lib: Library, secret: Secret, now: u64): Result<GeneratedPin, GenerateError> {
    if !lib.acceptsSecret(secret) then Err(InvalidParameters)
    else
      var code := TotpCustom(lib.hotp, secret, now);
      ToDigitsDecimal(code, 6);
      Ok(GeneratedPin(Render(ToDigits(code, 6)), STEP_SECONDS - now % STEP_SECONDS))
  }

  predicate IsCode(s: string) {
    |s| == 6 && forall i :: 0 <= i < 6 ==> '0' <= s[i] <= '9'
  }

  function Digits(s: string): seq<u8>
    requires IsCode(s)
  {
    seq(6, i requires 0 <= i < 6 => (s[i] - '0') as int)
  }

  /** The PIN is always six decimal characters, and reads back as the code of its time step. */
  lemma PinReadsBack(lib: Library, secret: Secret, now: u64)
    requires lib.acceptsSecret(secret)
    ensures GenerateAt(lib, secret, now).Ok? && IsCode(GenerateAt(lib, secret, now).value.pin)
    ensures DigitsToValue(Digits(GenerateAt(lib, secret, now).value.pin)) ==
      CodeOfStep(lib.hotp, secret, now / STEP_SECONDS)
  {
    var code := TotpCustom(lib.hotp, secret, now);
    ToDigitsDecimal(code, 6);
    var pin := GenerateAt(lib, secret, now).value.pin;
    assert Digits(pin) == ToDigits(code, 6);
    Pow10Small(6);
    ValueOfToDigits(code, 6);
  }

  /** A PIN is generated iff the library takes the secret; otherwise the error is reported. */
  lemma GeneratesIffAccepted(lib: Library, secret: Secret, now: u64)
    ensures GenerateAt(lib, secret, now).Ok? <==> lib.acceptsSecret(secret)
    ensures !lib.acceptsSecret(secret) ==> GenerateAt(lib, secret, now) == Err(InvalidParameters)
  {}

  /** In plain numbers: the PIN is the last six decimal digits of the library's value at the 30-second counter. */
  lemma PinInPlainNumbers(lib: Library, secret: Secret, now: u64)
    requires lib.acceptsSecret(secret)
    ensures var pin, v := GenerateAt(lib, secret, now).value.pin, lib.hotp(secret, now / 30) % 1_000_000;
      && |pin| == 6 && (forall i :: 0 <= i < 6 ==> '0' <= pin[i] <= '9')
      && v == 100_000 * (pin[0] - '0') as int + 10_000 * (pin[1] - '0') as int + 1_000 * (pin[2] - '0') as int +
              100 * (pin[3] - '0') as int + 10 * (pin[4] - '0') as int + (pin[5] - '0') as int
    ensures GenerateAt(lib, secret, now).value.validForSeconds == 30 - now % 30
  {
    PinReadsBack(lib, secret, now);
    ValueIsDecimal(Digits(GenerateAt(lib, secret, now).value.pin));
  }

  /** The lock's loop at time `tl` tries the step of a PIN issued at `ts` iff their steps differ by at most the skew. */
  lemma StepTriedIffClose(ts: u64, tl: u64, skew: u8)
    ensures Tries(tl, skew, ts / STEP_SECONDS) <==> -(skew as int) <= ts / STEP_SECONDS - tl / STEP_SECONDS <= skew
  {
    TriedIffInWindow(tl, skew, ts / STEP_SECONDS);
  }

  /** Drift up to 30 * skew seconds is always tolerated, 30 * (skew + 1) or more never is. */
  lemma DriftTolerance(ts: u64, tl: u64, skew: u8)
    ensures -(STEP_SECONDS * skew) <= ts - tl <= STEP_SECONDS * skew ==> Tries(tl, skew, ts / STEP_SECONDS)
    ensures ts - tl >= STEP_SECONDS * (skew + 1) || tl - ts >= STEP_SECONDS * (skew + 1) ==>
      !Tries(tl, skew, ts / STEP_SECONDS)
  {
    StepTriedIffClose(ts, tl, skew);
  }

  /** With equal clocks the PIN's step is tried up to and including second ts + validFor + 30 * skew - 1. */
  lemma LastAcceptingSecond(lib: Library, secret: Secret, ts: u64, tl: u64, skew: u8)
    requires lib.acceptsSecret(secret) && ts <= tl
    ensures Tries(tl, skew, ts / STEP_SECONDS) <==>
      tl <= ts + GenerateAt(lib, secret, ts).value.validForSeconds + STEP_SECONDS * skew - 1
  {
    StepTriedIffClose(ts, tl, skew);
  }

  /** A PIN is accepted at `tl` iff some counter in the lock's window shares the code of its step. */
  lemma PinAcceptedIff(lib: Library, secret: Secret, ts: u64, tl: u64, skew: u8)
    requires lib.acceptsSecret(secret)
    ensures IsCode(GenerateAt(lib, secret, ts).value.pin)
    ensures Accepts(lib.hotp, secret, Digits(GenerateAt(lib, secret, ts).value.pin), tl, skew) <==>
      exists counter: nat :: InWindow(tl, skew, counter) &&
        CodeOfStep(lib.hotp, secret, counter) == CodeOfStep(lib.hotp, secret, ts / STEP_SECONDS)
  {
    PinReadsBack(lib, secret, ts);
  }

  /** A PIN is accepted by the lock as long as its step is in the lock's window. */
  lemma IssuedPinAccepted(lib: Library, secret: Secret, ts: u64, tl: u64, skew: u8)
    requires lib.acceptsSecret(secret)
    requires -(skew as int) <= ts / STEP_SECONDS - tl / STEP_SECONDS <= skew
    ensures IsCode(GenerateAt(lib, secret, ts).value.pin)
    ensures Accepts(lib.hotp, secret, Digits(GenerateAt(lib, secret, ts).value.pin), tl, skew)
  {
    PinAcceptedIff(lib, secret, ts, tl, skew);
    assert InWindow(tl, skew, ts / STEP_SECONDS);
  }
}
