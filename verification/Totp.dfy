/** One-time codes over a Base32 secret: section 5.3 of RFC 4226 for the truncation, RFC 6238 for the
    time steps. The keyed hash is a parameter that returns twenty bytes.

    A server accepts the codes of the time steps around its own, up to a window on either side, and
    compares them with what was typed; an unusable secret or step number throws before a comparison. */
module Totp {
  import opened Common
  import opened Decimal
  import Base32

  type Digest = d: seq<bv8> | |d| == 20 witness seq(20, i => 0)

  type Hmac = (seq<bv8>, nat) -> Digest

  datatype TotpError = InvalidSecret | CounterOutOfRange

  /** The place of the four bytes, from the low half of the last one. */
  function Offset(last: bv8): (offset: nat)
    ensures offset < 16
  {
    (last & 0x0f) as nat
  }

  /** Four bytes of the digest as one word, without the sign bit. */
  function Truncated(digest: Digest): bv32 {
    var offset := Offset(digest[19]);
    ((digest[offset] & 0x7f) as bv32 << 24) | (digest[offset + 1] as bv32 << 16) | (digest[offset + 2] as bv32 << 8)
    | digest[offset + 3] as bv32
  }

  /** The word is not negative, and its bytes are the digest's, most significant first. */
  lemma {:induction false} TruncatedBytes(digest: Digest)
    ensures var w, offset := Truncated(digest), digest[19] as nat % 16;
      && w & 0x8000_0000 == 0
      && w >> 24 == (digest[offset] & 0x7f) as bv32 && (w >> 16) & 0xff == digest[offset + 1] as bv32
      && (w >> 8) & 0xff == digest[offset + 2] as bv32 && w & 0xff == digest[offset + 3] as bv32
  {
  }

  function CodeText(hmac: Hmac, key: seq<bv8>, counter: nat, digits: nat): string {
    PadStart(Digits(Truncated(hmac(key, counter)) as nat % Pow10(digits)), digits)
  }

  /** A code has the asked number of decimal digits, and at least one. */
  lemma {:induction false} CodeShape(hmac: Hmac, key: seq<bv8>, counter: nat, digits: nat)
    ensures var c := CodeText(hmac, key, counter, digits);
      |c| == Max(1, digits) && forall i :: 0 <= i < |c| ==> IsDigit(c[i])
  {
    var n := Truncated(hmac(key, counter)) as nat % Pow10(digits);
    if digits == 0 { assert n == 0; } else { DigitsFit(n, digits); }
    PadReadsBack(n, digits);
  }

  lemma {:induction false} SixPlaces()
    ensures Pow10(6) == 1_000_000
  {
    assert Pow10(3) == 10 * Pow10(2) && Pow10(2) == 10 * Pow10(1);
  }

  /** A code of six digits is the last six places of the truncated word. */
  lemma {:induction false} CodeIsLastPlaces(hmac: Hmac, key: seq<bv8>, counter: nat)
    ensures forall c :: c in CodeText(hmac, key, counter, 6) ==> IsDigit(c)
    ensures ReadNat(CodeText(hmac, key, counter, 6)) == Truncated(hmac(key, counter)) as nat % 1_000_000
  {
    SixPlaces();
    PadReadsBack(Truncated(hmac(key, counter)) as nat % 1_000_000, 6);
  }

  /** The counter must fit an unsigned 64-bit field. */
  function GenerateTotpCode(hmac: Hmac, secret: string, counter: int, digits: nat): Result<string, TotpError> {
    match Base32.Decode(secret)
    case Failure(_) => Failure(InvalidSecret)
    case Success(key) =>
      if 0 <= counter < 0x1_0000_0000_0000_0000 then Success(CodeText(hmac, key, counter, digits))
        else Failure(CounterOutOfRange)
  }

  predicate SixDigits(code: string) { |code| == 6 && forall i :: 0 <= i < 6 ==> IsDigit(code[i]) }

  /** Whether some step of the window has this code, trying from `offset` on; the first unusable step throws. */
  function VerifyFrom(codes: int -> Result<string, TotpError>, code: string, counter: int, offset: int,
                      window: int): Result<bool, TotpError>
    decreases window - offset
  {
    if offset > window then Success(false)
    else match codes(counter + offset)
      case Failure(e) => Failure(e)
      case Success(expected) =>
          if expected == code then Success(true) else VerifyFrom(codes, code, counter, offset + 1, window)
  }

  function CodesOf(hmac: Hmac, secret: string, digits: nat): int -> Result<string, TotpError> {
    counter => GenerateTotpCode(hmac, secret, counter, digits)
  }

  function Verify(hmac: Hmac, secret: string, code: string, counter: int, digits: nat,
                  window: int): Result<bool, TotpError>
  {
    if !SixDigits(code) then Success(false)
      else VerifyFrom(CodesOf(hmac, secret, digits), code, counter, -window, window)
  }

  /** The loop over the window's offsets. */
  method TryOffsets(codes: int -> Result<string, TotpError>, code: string, counter: int, window: int)
    returns (result: Result<bool, TotpError>)
    ensures result == VerifyFrom(codes, code, counter, -window, window)
  {
    var offset := -window;
    while offset <= window
      invariant VerifyFrom(codes, code, counter, offset, window) == VerifyFrom(codes, code, counter, -window, window)
    {
      var expected := codes(counter + offset);
      if expected.Failure? { return Failure(expected.error); }
      if expected.value == code { return Success(true); }
      offset := offset + 1;
    }
    return Success(false);
  }

  method VerifyTotpCode(hmac: Hmac, secret: string, code: string, counter: int, digits: nat, window: int)
    returns (result: Result<bool, TotpError>)
    ensures result == Verify(hmac, secret, code, counter, digits, window)
  {
    if !SixDigits(code) { return Success(false); }
    result := TryOffsets(CodesOf(hmac, secret, digits), code, counter, window);
  }

  /** The time step of a timestamp in milliseconds. */
  function CounterAt(timestamp: int, periodSeconds: nat): int
    requires periodSeconds > 0
  {
    timestamp / (1000 * periodSeconds)
  }

  /** The step in which a moment falls begins no later and ends after it. */
  lemma {:induction false} StepHoldsMoment(timestamp: int, periodSeconds: nat, step: int)
    requires periodSeconds > 0
    ensures CounterAt(timestamp, periodSeconds) == step <==>
      1000 * periodSeconds * step <= timestamp < 1000 * periodSeconds * step + 1000 * periodSeconds
  {
    var length, at := 1000 * periodSeconds, CounterAt(timestamp, periodSeconds);
    assert length * at <= timestamp < length * at + length;
    if step < at {
      Scaled(length, at - step);
      Spread(length, at, step, 0);
    } else if step > at {
      Scaled(length, step - at);
      Spread(length, step, at, 0);
    }
  }

  /** Anything but six digits is turned down before the secret is looked at; six digits with an unusable secret, or
      in a window that begins before step 0, throw. */
  lemma {:induction false} RefusedUnread(hmac: Hmac, secret: string, code: string, counter: int, digits: nat,
                                         window: int)
    requires window >= 0
    ensures !(|code| == 6 && forall c :: c in code ==> '0' <= c <= '9') ==>
      Verify(hmac, secret, code, counter, digits, window) == Success(false)
    ensures |code| == 6 && (forall c :: c in code ==> '0' <= c <= '9') ==>
      && (Base32.Decode(secret).Failure? ==>
            Verify(hmac, secret, code, counter, digits, window) == Failure(InvalidSecret))
      && (Base32.Decode(secret).Success? && counter < window ==>
            Verify(hmac, secret, code, counter, digits, window) == Failure(CounterOutOfRange))
  {
    if |code| == 6 && forall c :: c in code ==> '0' <= c <= '9' {
      forall i | 0 <= i < 6 ensures IsDigit(code[i]) { assert code[i] in code; }
      assert CodesOf(hmac, secret, digits)(counter - window)
        == GenerateTotpCode(hmac, secret, counter - window, digits);
    } else if |code| == 6 {
      var c :| c in code && !('0' <= c <= '9');
      assert !SixDigits(code);
    }
  }

  ghost predicate InRange(counter: int, window: int) {
    0 <= counter - window && counter + window < 0x1_0000_0000_0000_0000
  }

  /** The code is that of a step from `first` to `last` that fits the counter's field. */
  ghost predicate CodeOfStep(hmac: Hmac, key: seq<bv8>, code: string, digits: nat, first: int, last: int) {
    exists k: nat :: first <= k <= last && k < 0x1_0000_0000_0000_0000 && code == CodeText(hmac, key, k, digits)
  }

  lemma {:induction false} VerifyFromExactly(hmac: Hmac, secret: string, code: string, counter: int, digits: nat,
                                             offset: int, window: int)
    requires Base32.Decode(secret).Success? && 0 <= counter + offset
    ensures VerifyFrom(CodesOf(hmac, secret, digits), code, counter, offset, window) ==
      if CodeOfStep(hmac, Base32.Decode(secret).value, code, digits, counter + offset, counter + window)
      then Success(true)
      else if offset <= window && counter + window >= 0x1_0000_0000_0000_0000 then Failure(CounterOutOfRange)
      else Success(false)
    decreases window - offset
  {
    if offset <= window {
      VerifyFromExactly(hmac, secret, code, counter, digits, offset + 1, window);
      var key, first: nat := Base32.Decode(secret).value, counter + offset;
      assert CodesOf(hmac, secret, digits)(first) == GenerateTotpCode(hmac, secret, first, digits);
      if first < 0x1_0000_0000_0000_0000 && code == CodeText(hmac, key, first, digits) {
        assert CodeOfStep(hmac, key, code, digits, first, counter + window);
      } else if k: nat :| first <= k <= counter + window && k < 0x1_0000_0000_0000_0000
                          && code == CodeText(hmac, key, k, digits)
      {
        assert k != first;
        assert CodeOfStep(hmac, key, code, digits, first + 1, counter + window);
      }
    }
  }

  /** Six digits with a usable secret, exactly: accepted for the code of a step of the window that fits in 64 bits,
      and otherwise turned down, unless the window runs past the last such step, which throws. */
  lemma {:induction false} VerifiedExactly(hmac: Hmac, secret: string, code: string, counter: int, digits: nat,
                                           window: int)
    requires Base32.Decode(secret).Success? && SixDigits(code) && window >= 0 && 0 <= counter - window
    ensures Verify(hmac, secret, code, counter, digits, window) ==
      if CodeOfStep(hmac, Base32.Decode(secret).value, code, digits, counter - window, counter + window)
      then Success(true)
      else if counter + window >= 0x1_0000_0000_0000_0000 then Failure(CounterOutOfRange) else Success(false)
  {
    VerifyFromExactly(hmac, secret, code, counter, digits, -window, window);
  }

  /** Given a usable secret and time, a code is accepted exactly when codes have six digits and it is the code of
      some step at most `window` steps away. */
  lemma {:induction false} AcceptedExactlyWithinWindow(hmac: Hmac, secret: string, code: string, counter: int,
                                                       digits: nat, window: int)
    requires Base32.Decode(secret).Success? && InRange(counter, window)
    ensures var key := Base32.Decode(secret).value;
      Verify(hmac, secret, code, counter, digits, window)
      == Success(digits == 6
          && exists k: nat :: counter - window <= k <= counter + window && code == CodeText(hmac, key, k, 6))
  {
    var key := Base32.Decode(secret).value;
    VerifyFromExactly(hmac, secret, code, counter, digits, -window, window);
    if k: nat :| counter - window <= k <= counter + window && code == CodeText(hmac, key, k, digits) {
      CodeShape(hmac, key, k, digits);
    }
  }

  lemma {:induction false} NeverFrom(hmac: Hmac, secret: string, code: string, counter: int, digits: nat, offset: int,
                                     window: int)
    requires digits != 6 && |code| == 6
    ensures VerifyFrom(CodesOf(hmac, secret, digits), code, counter, offset, window) != Success(true)
    decreases window - offset
  {
    if offset <= window {
      var codes := CodesOf(hmac, secret, digits);
      assert codes(counter + offset) == GenerateTotpCode(hmac, secret, counter + offset, digits);
      WrongLength(hmac, secret, counter + offset, digits, code);
      NeverFrom(hmac, secret, code, counter, digits, offset + 1, window);
    }
  }

  /** With any other number of digits nothing is ever accepted, since codes of six digits are asked for. */
  lemma {:induction false} OtherDigitsNeverAccepted(hmac: Hmac, secret: string, code: string, counter: int, digits: nat,
                                                    window: int)
    requires digits != 6
    ensures Verify(hmac, secret, code, counter, digits, window) != Success(true)
  {
    if SixDigits(code) { NeverFrom(hmac, secret, code, counter, digits, -window, window); }
  }

  lemma {:induction false} WrongLength(hmac: Hmac, secret: string, counter: int, digits: nat, code: string)
    requires digits != 6 && |code| == 6
    ensures GenerateTotpCode(hmac, secret, counter, digits) != Success(code)
  {
    if GenerateTotpCode(hmac, secret, counter, digits).Success? {
      CodeShape(hmac, Base32.Decode(secret).value, counter, digits);
    }
  }

  /** Two clocks agree on a code while they are at most `window` whole periods apart. */
  lemma {:induction false} ClocksMayDrift(hmac: Hmac, secret: string, phone: int, server: int, period: nat, window: nat)
    requires Base32.Decode(secret).Success? && period > 0
    requires phone >= 0 && InRange(CounterAt(server, period), window)
    requires -1000 * period * window <= phone - server <= 1000 * period * window
    ensures var code := GenerateTotpCode(hmac, secret, CounterAt(phone, period), 6);
      code.Success? && Verify(hmac, secret, code.value, CounterAt(server, period), 6, window) == Success(true)
  {
    var step := 1000 * period;
    StepsApart(phone, server, step, window);
    var key, k: nat := Base32.Decode(secret).value, CounterAt(phone, period);
    AcceptedExactlyWithinWindow(hmac, secret, CodeText(hmac, key, k, 6), CounterAt(server, period), 6, window);
  }

  lemma {:induction false} StepsApart(a: int, b: int, step: nat, window: nat)
    requires step > 0 && -(step * window) <= a - b <= step * window
    ensures b / step - window <= a / step <= b / step + window
  {
    QuotientBelow(a, b, step, window);
    QuotientBelow(b, a, step, window);
  }

  /** Quotients of numbers at most `k` steps apart are at most `k` apart. */
  lemma {:induction false} QuotientBelow(a: int, b: int, step: nat, k: nat)
    requires step > 0 && a <= b + step * k
    ensures a / step <= b / step + k
  {
    var p, q := a / step, b / step;
    assert a == step * p + a % step && b == step * q + b % step;
    if p > q + k {
      Scaled(step, p - (q + k));
      assert step * (p - (q + k)) == step * p - step * q - step * k by { Spread(step, p, q, k); }
    }
  }

  lemma {:induction false} Scaled(step: nat, d: int)
    requires d >= 1
    ensures step * d >= step
  {
    assert step * d == step * (d - 1) + step;
  }

  lemma {:induction false} Spread(step: nat, p: int, q: int, k: int)
    ensures step * (p - (q + k)) == step * p - step * q - step * k
  {
  }
}
