/** Go's time arithmetic: a time.Duration is a 64-bit count of nanoseconds whose multiplication
    wraps, and instants lose their fraction of a second when they are stored or signed. */
module Durations {
  import opened Kube

  const TWO_63: int := 0x8000_0000_0000_0000
  const TWO_64: int := 0x1_0000_0000_0000_0000
  const MINUTE: Time := 60 * SECOND
  const HOUR: Time := 60 * MINUTE

  predicate Int64(x: int) { -TWO_63 <= x < TWO_63 }

  /** The value a 64-bit register holds for x. */
  function Wrap(x: int): (w: int)
    ensures Int64(w) && Int64(x) ==> w == x
    ensures Int64(w)
  {
    (x + TWO_63) % TWO_64 - TWO_63
  }

  /** A wrapped value lies within 64-bit bounds exactly when some multiple of 2 to the 64th takes
      the true value there, and it is the true value exactly when nothing wrapped. */
  lemma WrapIs(x: int, low: int, high: int)
    requires Int64(low) && Int64(high)
    ensures low <= Wrap(x) <= high <==> exists k :: low <= x - k * TWO_64 <= high
    ensures Wrap(x) == x <==> Int64(x)
  {
    var q := (x + TWO_63) / TWO_64;
    assert Wrap(x) == x - q * TWO_64;
    if k :| low <= x - k * TWO_64 <= high { QuotientIs(x + TWO_63, k); }
  }

  lemma QuotientIs(x: int, k: int)
    requires 0 <= x - k * TWO_64 < TWO_64
    ensures x / TWO_64 == k
  {}

  /** An instant as stored in RFC 3339 or as a JWT NumericDate: whole seconds, rounded down. */
  function Stored(t: Time): (s: Time)
    ensures s <= t < s + SECOND
  {
    t / SECOND * SECOND
  }

  lemma StoredIsWhole(t: Time)
    ensures Stored(t) % SECOND == 0 && Stored(Stored(t)) == Stored(t)
  {}

  /** Rounding both ends keeps every bound that is a whole number of seconds, and keeps a
      lifetime of at least a second positive, even for a duration with a fraction. */
  lemma StoredLifetime(now: Time, d: Time, seconds: int)
    ensures d <= seconds * SECOND ==> Stored(now + d) - Stored(now) <= seconds * SECOND
    ensures d >= seconds * SECOND ==> Stored(now + d) - Stored(now) >= seconds * SECOND
  {
    var a, b := now / SECOND, (now + d) / SECOND;
    assert Stored(now) == a * SECOND && Stored(now + d) == b * SECOND;
    assert d <= seconds * SECOND ==> (b - a) * SECOND < (seconds + 1) * SECOND;
    assert d >= seconds * SECOND ==> (b - a) * SECOND > (seconds - 1) * SECOND;
  }
}
