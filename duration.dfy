/**
 * The countdown's arithmetic: the three fields read as one count of
 * seconds, and that count split back into hours, minutes and seconds by
 * integer division and remainder.
 */
module Duration {

  /** Hours, minutes and seconds as three separate numbers. */
  datatype Clock = Clock(hour: nat, minute: nat, second: nat)

  /** `hour * 3600 + minute * 60 + second`; nothing bounds minute or second here. */
  function TotalSeconds(hour: nat, minute: nat, second: nat): (total: nat)
    ensures total == (hour * 60 + minute) * 60 + second
  {
    hour * 3600 + minute * 60 + second
  }

  /** Minutes and seconds each below 60; hours are unbounded. */
  predicate Canonical(c: Clock) {
    c.minute < 60 && c.second < 60
  }

  /**
   * Whole hours first, then whole minutes of what is left, then the
   * remaining seconds. The count is never negative here, so the floor
   * and remainder of the division agree with Dafny's `/` and `%`.
   */
  function Split(total: nat): (c: Clock)
    ensures Canonical(c)
    ensures TotalSeconds(c.hour, c.minute, c.second) == total
  {
    var hours := total / 3600;
    var remainingSeconds := total % 3600;
    Clock(hours, remainingSeconds / 60, remainingSeconds % 60)
  }

  /** A canonical clock is the only one Split can give for its total. */
  lemma SplitOfCanonical(c: Clock)
    requires Canonical(c)
    ensures Split(TotalSeconds(c.hour, c.minute, c.second)) == c
  {
    var within := c.minute * 60 + c.second;
    assert within < 3600;
    DivModUnique(c.hour, within, 3600);
    DivModUnique(c.minute, c.second, 60);
  }

  /** Quotient and remainder by a positive divisor are unique. */
  lemma DivModUnique(q: nat, r: nat, d: nat)
    requires r < d
    ensures (q * d + r) / d == q && (q * d + r) % d == r
  {
    var t := q * d + r;
    var q', r' := t / d, t % d;
    assert t == q' * d + r';
    MultipleGap(q', q, d);
    MultipleGap(q, q', d);
  }

  /** Distinct multiples of d lie at least d apart. */
  lemma MultipleGap(a: nat, b: nat, d: nat)
    ensures a < b ==> a * d + d <= b * d
  {
    if a < b {
      var k := b - a;
      assert b * d == a * d + k * d;
      assert k * d == d + (k - 1) * d;
    }
  }

  /** No time is set exactly when all three fields are zero. */
  lemma TotalIsZero(hour: nat, minute: nat, second: nat)
    ensures TotalSeconds(hour, minute, second) == 0 <==> hour == 0 && minute == 0 && second == 0
  {
  }
}
