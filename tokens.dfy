/**
 * JWT expiry: a token is expired when it carries a numeric `exp` (seconds)
 * that is earlier than the current second. The clock is a parameter, in
 * milliseconds, as `Date.now()` gives it.
 */
module Tokens {
  import opened Js

  /** `Math.floor(nowMs / 1000)`; for a positive divisor Dafny's `/` is the floor. */
  function CurrentSecond(nowMs: int): (sec: int)
    ensures sec * 1000 <= nowMs < (sec + 1) * 1000
  {
    nowMs / 1000
  }

  /** `typeof token.exp === "number" && token.exp < currentTimestamp`; a non-numeric `exp` is `None`. */
  predicate IsTokenExpired(exp: Option<int>, nowMs: int) {
    exp.Some? && exp.value < CurrentSecond(nowMs)
  }

  /** A token without a numeric expiry never expires. */
  lemma NoExpiryNeverExpires(nowMs: int)
    ensures !IsTokenExpired(None, nowMs)
  {
  }

  /** Expired exactly when the whole second after `exp` has begun: `(exp + 1) * 1000 <= nowMs`. */
  lemma ExpiredIffSecondPassed(exp: int, nowMs: int)
    ensures IsTokenExpired(Some(exp), nowMs) <==> (exp + 1) * 1000 <= nowMs
  {
    var q := nowMs / 1000;
    assert q * 1000 <= nowMs < q * 1000 + 1000;
    if exp < q {
      assert (exp + 1) * 1000 <= q * 1000;
    } else {
      assert (exp + 1) * 1000 > nowMs;
    }
  }

  /** During the second named by `exp` the token is still valid. */
  lemma NotExpiredInItsOwnSecond(exp: int, nowMs: int)
    requires CurrentSecond(nowMs) == exp
    ensures !IsTokenExpired(Some(exp), nowMs)
  {
  }

  /** Once expired, always expired. */
  lemma ExpiryMonotone(exp: Option<int>, t1: int, t2: int)
    requires t1 <= t2 && IsTokenExpired(exp, t1)
    ensures IsTokenExpired(exp, t2)
  {
    ExpiredIffSecondPassed(exp.value, t1);
    ExpiredIffSecondPassed(exp.value, t2);
  }
}
