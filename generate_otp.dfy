/** The e-mail OTP: a 4-digit code from `crypto.randomInt(1000, 10000)` sent as its
    decimal string, and the expiry instant `now + minutes * 60 * 1000` in milliseconds. */
module OtpCode {

  const OTP_MIN: int := 1000
  const OTP_MAX_EXCLUSIVE: int := 10000
  const MS_PER_MINUTE: int := 60 * 1000

  /** `crypto.randomInt(min, max)`: some integer in [min, max). The random source is the
      parameter `draw`; every value in the range is reachable (RandomIntReachesEveryValue). */
  function RandomInt(min: int, max: int, draw: nat): (r: int)
    requires min < max
    ensures min <= r < max
  {
    min + draw % (max - min)
  }

  lemma RandomIntReachesEveryValue(min: int, max: int, v: int)
    requires min <= v < max
    ensures exists draw: nat :: RandomInt(min, max, draw) == v
  {
    var draw: nat := v - min;
    assert RandomInt(min, max, draw) == v;
  }

  /** `generateOTP()`: the upper bound is exclusive, so the code has four digits. */
  function GenerateOtp(draw: nat): (r: int)
    ensures 1000 <= r <= 9999
  {
    RandomInt(OTP_MIN, OTP_MAX_EXCLUSIVE, draw)
  }

  function Digit(d: nat): (c: char)
    requires d < 10
    ensures '0' <= c <= '9'
  {
    "0123456789"[d]
  }

  predicate AllDigits(s: string)
  {
    forall i | 0 <= i < |s| :: '0' <= s[i] <= '9'
  }

  /** `n.toString()` for a non-negative integer: its decimal digits without leading zeros. */
  function NatToString(n: nat): (s: string)
    ensures |s| >= 1 && AllDigits(s)
    ensures n > 0 ==> s[0] != '0'
  {
    if n < 10 then [Digit(n)] else NatToString(n / 10) + [Digit(n % 10)]
  }

  /** The value a string of decimal digits denotes. */
  function DecimalValue(s: string): nat
    requires AllDigits(s)
  {
    if s == [] then 0 else 10 * DecimalValue(s[..|s| - 1]) + (s[|s| - 1] as int - '0' as int)
  }

  lemma {:induction false} DecimalValueOfNatToString(n: nat)
    ensures DecimalValue(NatToString(n)) == n
  {
    if n >= 10 {
      DecimalValueOfNatToString(n / 10);
      var s := NatToString(n);
      assert s[..|s| - 1] == NatToString(n / 10);
    }
  }

  function Pow10(k: nat): nat
  {
    if k == 0 then 1 else 10 * Pow10(k - 1)
  }

  lemma {:induction false} NatToStringLength(n: nat, k: nat)
    requires k >= 1 && Pow10(k - 1) <= n < Pow10(k)
    ensures |NatToString(n)| == k
  {
    if k > 1 {
      NatToStringLength(n / 10, k - 1);
    } else {
      assert n < 10;
    }
  }

  /** `generateOTP().toString()`, the code stored in the ledger and put in the e-mail. */
  function OtpString(draw: nat): (s: string)
    ensures |s| == 4 && AllDigits(s) && s[0] != '0'
    ensures DecimalValue(s) == GenerateOtp(draw)
  {
    var n := GenerateOtp(draw);
    assert Pow10(3) == 1000 && Pow10(4) == 10000;
    NatToStringLength(n, 4);
    DecimalValueOfNatToString(n);
    NatToString(n)
  }

  /** Different codes give different strings: the stored string identifies the code. */
  lemma OtpStringInjective(d1: nat, d2: nat)
    requires GenerateOtp(d1) != GenerateOtp(d2)
    ensures OtpString(d1) != OtpString(d2)
  {
  }

  /** `getOTPExpiry(durationMinutes)` at clock reading `now` (milliseconds). */
  function GetOtpExpiry(now: int, durationMinutes: int): (t: int)
    ensures durationMinutes >= 0 ==> t >= now
    ensures durationMinutes == 0 ==> t == now
    ensures durationMinutes == 5 ==> t == now + 300000
  {
    now + durationMinutes * MS_PER_MINUTE
  }

  lemma ExpiryMonotone(now: int, d1: int, d2: int)
    requires d1 <= d2
    ensures GetOtpExpiry(now, d1) <= GetOtpExpiry(now, d2)
  {
  }

  /** Each extra minute moves the expiry exactly 60000 ms later. */
  lemma ExpiryPerMinute(now: int, d: int)
    ensures GetOtpExpiry(now, d + 1) == GetOtpExpiry(now, d) + MS_PER_MINUTE
  {
  }
}
