/** Integer quotients by a variable, one small fact at a time. */
module Division {

  lemma DivNonNegative(a: int, d: int)
    requires a >= 0 && d > 0
    ensures a / d >= 0
  {
  }

  lemma DivBounds(q: int, d: int)
    requires d > 0
    ensures q / d * d <= q < (q / d + 1) * d
    ensures q % d == q - q / d * d
  {
  }

  lemma NextMultiple(m: int, d: int)
    ensures (m + 1) * d == m * d + d
  {
  }

  lemma TimesMonotone(a: int, b: int, d: int)
    requires d > 0
    ensures a <= b <==> a * d <= b * d
  {
    if a <= b {
      assert (b - a) * d >= 0;
    } else {
      assert (a - b) * d > 0;
    }
  }

  /** Integer quotient and remainder are determined by their defining bounds. */
  lemma DivUnique(q: int, d: int, m: int)
    requires d > 0 && m * d <= q < (m + 1) * d
    ensures q / d == m && q % d == q - m * d
  {
    DivBounds(q, d);
    TimesMonotone(m + 1, q / d, d);
    TimesMonotone(q / d + 1, m, d);
  }

  lemma DivShift(m: int, p: int, d: int)
    requires d > 0
    ensures (m * d + p) / d == m + p / d && (m * d + p) % d == p % d
  {
    DivBounds(p, d);
    assert (m + p / d) * d == m * d + p / d * d;
    assert (m + p / d + 1) * d == m * d + (p / d + 1) * d;
    DivUnique(m * d + p, d, m + p / d);
  }

  lemma DivAtMost(q: int, d: int, m: int)
    requires d > 0
    ensures q / d <= m <==> q < (m + 1) * d
  {
    DivBounds(q, d);
    TimesMonotone(q / d + 1, m + 1, d);
    TimesMonotone(m + 1, q / d, d);
  }
}
