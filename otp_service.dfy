/** OTP generation and expiry. The random draw of `crypto.randomInt(100000, 1000000)` and
    the clock are parameters. */
module OtpService {
  import opened Text

  /** The draw range of the generator: 100000 inclusive to 1000000 exclusive. */
  const OtpLow := 100000
  const OtpHigh := 1000000

  /** An OTP lives five minutes. */
  const OtpLifetimeMs := 5 * 60 * 1000

  /** `generateOTP`: the decimal numeral of the draw. */
  function GenerateOtp(draw: int): (code: string)
    requires OtpLow <= draw < OtpHigh
    ensures |code| == 6 && AllDigits(code) && code[0] != '0'
    ensures DecimalValue(code) == draw
  {
    assert Pow10(5) == OtpLow && Pow10(6) == OtpHigh;
    DecimalLength(draw, 5);
    DecimalRoundTrip(draw);
    DecimalString(draw)
  }

  /** Different draws give different codes. */
  lemma GenerateOtpInjective(a: int, b: int)
    requires OtpLow <= a < OtpHigh && OtpLow <= b < OtpHigh
    ensures GenerateOtp(a) == GenerateOtp(b) ==> a == b
  {
  }

  /** `otpExpiry`: five minutes after now. */
  function OtpExpiry(now: int): (e: int)
    ensures e > now && e - now == OtpLifetimeMs
  {
    now + OtpLifetimeMs
  }
}
