/**
 * Positions in the generator's nested loops.  A two-level loop with inner
 * bound d visits (q, r) at position q * d + r; a three-level loop with bounds
 * m and d visits (a, b, c) at position (a * m + b) * d + c.
 */
module IndexArith {

  lemma PositionBelow(q: nat, r: nat, a: nat, d: nat)
    requires q < a && r < d
    ensures q * d + r < a * d
  {
    assert q * d + r < q * d + d == (q + 1) * d;
    assert (q + 1) * d <= a * d;
  }

  /** A three-level position is an outer step of m * d plus a two-level position inside it. */
  lemma PositionSplit(a: nat, b: nat, c: nat, m: nat, d: nat)
    ensures (a * m + b) * d + c == a * (m * d) + (b * d + c)
  {
    assert (a * m + b) * d == a * m * d + b * d;
    assert a * m * d == a * (m * d);
  }

  /** A position below a * d lies in one of the first a blocks of d. */
  lemma QuotientBelow(p: nat, d: nat, a: nat)
    requires 0 < d && p < a * d
    ensures p / d < a
  {
    assert (p / d) * d <= p;
  }
}
