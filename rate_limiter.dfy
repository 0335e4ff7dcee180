/**
  Rate-limiter configuration (src/middleware/rateLimiter.middleware.js).

  Only the configuration and the over-limit reply are modelled; the counting
  and the delaying happen inside express-rate-limit and express-slow-down.
  `time` and `requests` are whole numbers here.
*/
module RateLimiter {
  import opened Wrappers
  import opened Http
  import opened Units
  const TooManyRequests: string := "Too many requests from this IP, please try again later."

  /** The options object passed to rateLimit (lines 6-10). */
  datatype LimitConfig = LimitConfig(windowMs: int, max: int, standardHeaders: bool, legacyHeaders: bool)

  /** generalRateLimit(requests, time): at most `requests` hits per window of `time` minutes. */
  function GeneralRateLimit(requests: int, time: int): (c: LimitConfig)
    ensures c.max == requests
    ensures c.windowMs % MsPerMinute == 0 && c.windowMs / MsPerMinute == time
    ensures c.standardHeaders && !c.legacyHeaders
  {
    LimitConfig(time * MsPerMinute, requests, true, false)
  }

  // ---------------------------------------------------------------------------
  // Decimal rendering of `${time}` and its inverse.

  function DigitChar(d: nat): (c: char)
    requires d < 10
    ensures '0' <= c <= '9' && c as int - '0' as int == d
  {
    ('0' as int + d) as char
  }

  predicate AllDigits(s: string) {
    forall i | 0 <= i < |s| :: '0' <= s[i] <= '9'
  }

  /** The decimal digits of `n`, most significant first, without leading zeros. */
  function NatToString(n: nat): (s: string)
    ensures |s| > 0 && AllDigits(s)
    ensures |s| > 1 ==> s[0] != '0'
  {
    if n < 10 then [DigitChar(n)]
    else
      var s := NatToString(n / 10) + [DigitChar(n % 10)];
      assert s[0] == NatToString(n / 10)[0];
      s
  }

  /** `${n}` for an integer `n`, written in plain decimal as JavaScript does for integers below 1e21. */
  function IntToString(n: int): (s: string)
    ensures |s| > 0
    ensures s[0] == '-' <==> n < 0
  {
    if n < 0 then "-" + NatToString(-n) else NatToString(n)
  }

  /** The value of a non-empty run of decimal digits. */
  function DigitsValue(s: string): (n: nat)
    requires |s| > 0 && AllDigits(s)
  {
    var last := (s[|s| - 1] as int - '0' as int) as nat;
    if |s| == 1 then last else 10 * DigitsValue(s[..|s| - 1]) + last
  }

  /** A decimal numeral as `${n}` writes it: digits only, no leading zero unless it is `0` itself. */
  predicate Canonical(s: string) {
    |s| > 0 && AllDigits(s) && (|s| > 1 ==> s[0] != '0')
  }

  function ParseNat(s: string): (r: Option<nat>)
    ensures r.Some? <==> Canonical(s)
  {
    if Canonical(s) then Some(DigitsValue(s)) else None
  }

  /** Reads back what IntToString writes: an optional `-` and digits. */
  function ParseInt(s: string): (r: Option<int>)
    ensures r.Some? && r.value < 0 ==> |s| > 0 && s[0] == '-'
  {
    if |s| > 0 && s[0] == '-' then
      match ParseNat(s[1..])
      case Some(n) => if n == 0 then None else Some(-(n as int))
      case None => None
    else
      match ParseNat(s)
      case Some(n) => Some(n as int)
      case None => None
  }

  lemma {:induction false} NatToStringRoundTrip(n: nat)
    ensures DigitsValue(NatToString(n)) == n
  {
    if n >= 10 {
      var s := NatToString(n);
      var init := NatToString(n / 10);
      assert s == init + [DigitChar(n % 10)];
      assert s[..|s| - 1] == init;
      NatToStringRoundTrip(n / 10);
    }
  }

  /** A numeral with a non-zero first digit has a positive value. */
  lemma {:induction false} DigitsValuePositive(s: string)
    requires |s| > 0 && AllDigits(s) && s[0] != '0'
    ensures DigitsValue(s) >= 1
    decreases |s|
  {
    if |s| > 1 {
      var init := s[..|s| - 1];
      assert init[0] == s[0];
      DigitsValuePositive(init);
    }
  }

  /** Every numeral ParseNat accepts is the one NatToString writes for its value. */
  lemma {:induction false} ParseNatCanonical(s: string)
    requires Canonical(s)
    ensures NatToString(DigitsValue(s)) == s
    decreases |s|
  {
    var last := (s[|s| - 1] as int - '0' as int) as nat;
    if |s| > 1 {
      var init := s[..|s| - 1];
      assert init[0] == s[0];
      assert Canonical(init);
      DigitsValuePositive(init);
      ParseNatCanonical(init);
      var v := DigitsValue(s);
      assert v == 10 * DigitsValue(init) + last;
      assert v / 10 == DigitsValue(init) && v % 10 == last;
      assert DigitChar(last) == s[|s| - 1];
      assert s == init + [s[|s| - 1]];
    } else {
      assert DigitChar(last) == s[0];
    }
  }

  /** Every text ParseInt accepts is the one IntToString writes for its value. */
  lemma ParseIntCanonical(s: string)
    requires ParseInt(s).Some?
    ensures IntToString(ParseInt(s).value) == s
  {
    if |s| > 0 && s[0] == '-' {
      ParseNatCanonical(s[1..]);
      assert s == "-" + s[1..];
    } else {
      ParseNatCanonical(s);
    }
  }

  lemma IntToStringRoundTrip(n: int)
    ensures ParseInt(IntToString(n)) == Some(n)
  {
    var s := IntToString(n);
    if n < 0 {
      var digits := NatToString(-n);
      assert s == "-" + digits;
      assert s[1..] == digits;
      NatToStringRoundTrip(-n);
      assert ParseNat(s[1..]) == Some(-n);
    } else {
      assert s == NatToString(n);
      NatToStringRoundTrip(n);
      assert s[0] != '-';
      assert ParseNat(s) == Some(n);
    }
  }

  // ---------------------------------------------------------------------------
  // The over-limit handler (lines 11-17).

  /** `${time} minute${time > 1 ? 's' : ''}`. */
  function RetryAfter(time: int): (s: string)
    ensures |s| > 0 && (s[|s| - 1] == 's' <==> time > 1)
  {
    IntToString(time) + " minute" + (if time > 1 then "s" else "")
  }

  predicate HasSuffix(s: string, suffix: string) {
    |suffix| <= |s| && s[|s| - |suffix|..] == suffix
  }

  /** Reads the number of minutes back from a retryAfter string. */
  function ParseRetryAfter(s: string): (r: Option<int>)
  {
    if HasSuffix(s, " minutes") then ParseInt(s[..|s| - 8])
    else if HasSuffix(s, " minute") then ParseInt(s[..|s| - 7])
    else None
  }

  /** The retryAfter text names the window length it was built from. */
  lemma RetryAfterRoundTrip(time: int)
    ensures ParseRetryAfter(RetryAfter(time)) == Some(time)
  {
    var digits := IntToString(time);
    var s := RetryAfter(time);
    IntToStringRoundTrip(time);
    if time > 1 {
      assert s == digits + " minutes";
      assert s[|s| - 8..] == " minutes";
      assert s[..|s| - 8] == digits;
    } else {
      assert s == digits + " minute";
      assert s[|s| - 1] == 'e';
      assert !HasSuffix(s, " minutes");
      assert s[|s| - 7..] == " minute";
      assert s[..|s| - 7] == digits;
    }
  }

  /** RetryAfter writes the only text that names `time` minutes with the plural rule: any string that parses
      back to `time` and ends in `s` exactly when `time > 1` is RetryAfter(time). */
  lemma RetryAfterUnique(s: string, time: int)
    requires ParseRetryAfter(s) == Some(time)
    requires |s| > 0 && (s[|s| - 1] == 's' <==> time > 1)
    ensures s == RetryAfter(time)
  {
    if HasSuffix(s, " minutes") {
      var digits := s[..|s| - 8];
      assert ParseInt(digits) == Some(time);
      assert s[|s| - 1] == " minutes"[7];
      ParseIntCanonical(digits);
      assert IntToString(time) == digits;
      assert RetryAfter(time) == digits + " minute" + "s";
      assert s == digits + " minutes";
    } else {
      assert HasSuffix(s, " minute");
      var digits := s[..|s| - 7];
      assert ParseInt(digits) == Some(time);
      assert s[|s| - 1] == " minute"[6];
      ParseIntCanonical(digits);
      assert IntToString(time) == digits;
      assert RetryAfter(time) == digits + " minute" + "";
      assert s == digits + " minute";
    }
  }

  /** The 429 reply; it does not depend on the request or on the limit, only on the window length. */
  function OverLimit(time: int): (r: Reply)
    ensures r.Json? && r.status == 429
    ensures r.body.RateLimited? && r.body.message == TooManyRequests
    ensures r.body.retryAfter == RetryAfter(time)
    ensures ParseRetryAfter(r.body.retryAfter) == Some(time)
  {
    RetryAfterRoundTrip(time);
    Json(429, RateLimited(TooManyRequests, RetryAfter(time)))
  }

  /** Zero minutes is still written in the singular. */
  lemma ZeroMinutesSingular()
    ensures RetryAfter(0) == "0 minute"
  {
  }

  // ---------------------------------------------------------------------------
  // The instances the auth routes create (src/routes/auth.routes.js:19 and :22).

  /** The login limiter: two requests a minute (the comment above it speaks of ten). */
  lemma LoginLimitInstance()
    ensures GeneralRateLimit(2, 1) == LimitConfig(60000, 2, true, false)
    ensures OverLimit(1).body.retryAfter == "1 minute"
  {
  }

  /** The sign-up limiter: three requests an hour. */
  lemma RegisterLimitInstance()
    ensures GeneralRateLimit(3, 60) == LimitConfig(3600000, 3, true, false)
    ensures OverLimit(60).body.retryAfter == "60 minutes"
  {
    assert NatToString(60) == NatToString(6) + [DigitChar(0)];
  }

  // ---------------------------------------------------------------------------
  // speedLimiter (lines 22-27).

  datatype SlowDownConfig = SlowDownConfig(windowMs: int, delayAfter: int, delayMs: int, maxDelayMs: int)

  const SpeedLimiter: SlowDownConfig := SlowDownConfig(15 * 60 * 1000, 20, 500, 20000)

  /** The delay the configuration's comments promise for the `hits`-th request of a window:
      none for the first `delayAfter`, then `delayMs` more per request, never above `maxDelayMs`. */
  function PromisedDelay(c: SlowDownConfig, hits: nat): (ms: int)
    requires c.delayMs >= 0 && c.maxDelayMs >= 0
    ensures 0 <= ms <= c.maxDelayMs
    ensures hits <= c.delayAfter ==> ms == 0
  {
    var over := hits - c.delayAfter;
    if over <= 0 then 0
    else if over * c.delayMs > c.maxDelayMs then c.maxDelayMs
    else over * c.delayMs
  }

  /** With speedLimiter's values: a 15-minute window, 20 requests at full speed, then 500 ms each, capped at 20 s. */
  lemma SpeedLimiterDelays(hits: nat)
    ensures SpeedLimiter.windowMs == 900000
    ensures PromisedDelay(SpeedLimiter, hits) == 0 <==> hits <= 20
    ensures 20 < hits <= 60 ==> PromisedDelay(SpeedLimiter, hits) == (hits - 20) * 500
    ensures hits >= 60 ==> PromisedDelay(SpeedLimiter, hits) == 20000
  {
  }

  /** The promised delay never decreases as requests accumulate. */
  lemma PromisedDelayMonotone(c: SlowDownConfig, a: nat, b: nat)
    requires c.delayMs >= 0 && c.maxDelayMs >= 0 && a <= b
    ensures PromisedDelay(c, a) <= PromisedDelay(c, b)
  {
  }
}
