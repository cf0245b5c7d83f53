/** The amounts of an Epay order when quota is displayed as tokens: getMinTopup, the conversion in RequestEpay and the
    credit in EpayNotify, all in controller/topup.go. Decimal division rounds half up at 16 digits after the point. */
module TopUpAmount {

  const ONE := 10_000_000_000_000_000

  /** x / q rounded half up. */
  function RoundedQuotient(x: nat, q: nat): nat
    requires q > 0
  {
    x / q + if 2 * (x % q) >= q then 1 else 0
  }

  /** a / q rounded half up to a whole number of steps of 1 / `one`. */
  function DivRound(a: nat, q: nat, one: nat): nat
    requires q > 0
  {
    RoundedQuotient(a * one, q)
  }

  /** The integer part of that quotient: the amount stored in the order. */
  function Units(tokens: nat, perUnit: nat): nat
    requires perUnit > 0
  {
    DivRound(tokens, perUnit, ONE) / ONE
  }

  /** The quota that the callback adds for an order. */
  function Credited(tokens: nat, perUnit: nat): nat
    requires perUnit > 0
  {
    Units(tokens, perUnit) * perUnit
  }

  predicate PassesMinimum(tokens: nat, minTopUp: nat, perUnit: nat) {
    tokens >= minTopUp * perUnit
  }

  /** Rounding reaches the next unit exactly when the remainder is within half a step of it. */
  predicate RoundsUp(tokens: nat, perUnit: nat, one: nat)
    requires perUnit > 0
  {
    2 * ((perUnit - tokens % perUnit) * one) <= perUnit
  }

  lemma Times(a: nat, b: nat, c: nat)
    requires a <= b
    ensures a * c <= b * c
    ensures (b - a) * c == b * c - a * c
  {
  }

  lemma SmallMultiple(k: int, q: nat)
    requires 0 - q < k * q < q
    ensures k == 0
  {
  }

  lemma DivideOut(u: nat, q: nat, x: nat)
    requires q > 0
    ensures (u * q + x) / q == u + x / q && (u * q + x) % q == x % q
  {
    var d, m := (u * q + x) / q, (u * q + x) % q;
    assert d * q + m == u * q + x == u * q + (x / q) * q + x % q;
    assert (d - u - x / q) * q == x % q - m;
    SmallMultiple(d - u - x / q, q);
  }

  lemma LastStep(m: nat, s: nat, q: nat, one: nat, gap: nat)
    requires m * q + s + gap == one * q && s < q && gap > 0
    ensures m < one
    ensures m == one - 1 && 2 * s >= q <==> 2 * gap <= q
  {
    if m >= one { Times(one, m, q); }
    Times(m, one, q);
    if m + 2 <= one { Times(2, one - m, q); }
  }

  lemma RoundedBelow(x: nat, q: nat, one: nat, gap: nat)
    requires q > 0 && gap > 0 && x + gap == one * q
    ensures RoundedQuotient(x, q) <= one
    ensures RoundedQuotient(x, q) == one <==> 2 * gap <= q
  {
    LastStep(x / q, x % q, q, one, gap);
  }

  /** What is left of one unit after rounding: less than a unit, or all of it. */
  lemma RoundedRemainder(rem: nat, q: nat, one: nat)
    requires rem < q && one > 0
    ensures DivRound(rem, q, one) <= one
    ensures DivRound(rem, q, one) == one <==> 2 * ((q - rem) * one) <= q
  {
    Times(rem, q, one);
    Times(1, q - rem, one);
    RoundedBelow(rem * one, q, one, (q - rem) * one);
  }

  lemma Distribute(u: nat, q: nat, rem: nat, one: nat)
    ensures (u * q + rem) * one == (u * one) * q + rem * one
  {
    assert (u * q) * one == (u * one) * q;
  }

  lemma WholePart(tokens: nat, perUnit: nat, one: nat)
    requires perUnit > 0
    ensures DivRound(tokens, perUnit, one) == (tokens / perUnit) * one + DivRound(tokens % perUnit, perUnit, one)
  {
    var u, rem := tokens / perUnit, tokens % perUnit;
    assert tokens == u * perUnit + rem;
    Distribute(u, perUnit, rem, one);
    DivideOut(u * one, perUnit, rem * one);
  }

  lemma UnitsSplit(tokens: nat, perUnit: nat, one: nat)
    requires perUnit > 0 && one > 0
    ensures DivRound(tokens, perUnit, one) / one ==
            tokens / perUnit + if RoundsUp(tokens, perUnit, one) then 1 else 0
  {
    WholePart(tokens, perUnit, one);
    RoundedRemainder(tokens % perUnit, perUnit, one);
    UnitOrLess(tokens / perUnit, one, DivRound(tokens % perUnit, perUnit, one));
  }

  lemma UnitOrLess(u: nat, one: nat, rest: nat)
    requires rest <= one && one > 0
    ensures (u * one + rest) / one == u + if rest == one then 1 else 0
  {
    DivideOut(u, one, rest);
  }

  /** The credit is the largest multiple of the quota per unit not above the requested tokens, exactly when the decimal
      division does not round up into the next unit. */
  lemma CreditIsLargestMultipleIff(tokens: nat, perUnit: nat)
    requires perUnit > 0
    ensures Credited(tokens, perUnit) <= tokens < Credited(tokens, perUnit) + perUnit <==>
            !RoundsUp(tokens, perUnit, ONE)
    ensures Credited(tokens, perUnit) % perUnit == 0
  {
    UnitsSplit(tokens, perUnit, ONE);
    var u := Units(tokens, perUnit);
    assert tokens == (tokens / perUnit) * perUnit + tokens % perUnit;
    assert (tokens / perUnit + 1) * perUnit == (tokens / perUnit) * perUnit + perUnit;
    DivideOut(u, perUnit, 0);
  }

  /** No quota per unit below 2 * 10^16 ever rounds up. */
  lemma UsualUnitsAreExact(tokens: nat, perUnit: nat)
    requires 0 < perUnit < 2 * ONE
    ensures Credited(tokens, perUnit) <= tokens < Credited(tokens, perUnit) + perUnit
  {
    CreditIsLargestMultipleIff(tokens, perUnit);
    assert perUnit - tokens % perUnit >= 1;
  }

  lemma DivideAtLeast(tokens: nat, units: nat, perUnit: nat)
    requires perUnit > 0 && tokens >= units * perUnit
    ensures tokens / perUnit >= units
  {
    var u := tokens / perUnit;
    assert tokens < u * perUnit + perUnit;
    if u < units { Times(u + 1, units, perUnit); }
  }

  /** An order that passes the minimum check is credited at least the minimum. */
  lemma MinimumIsCredited(tokens: nat, minTopUp: nat, perUnit: nat)
    requires perUnit > 0 && PassesMinimum(tokens, minTopUp, perUnit)
    ensures Units(tokens, perUnit) >= minTopUp
    ensures Credited(tokens, perUnit) >= minTopUp * perUnit
  {
    UnitsSplit(tokens, perUnit, ONE);
    DivideAtLeast(tokens, minTopUp, perUnit);
    Times(minTopUp, Units(tokens, perUnit), perUnit);
  }

  /** With the usual quota per unit an order passes the minimum check exactly when it is credited the minimum. */
  lemma PassesIffMinimumIsCredited(tokens: nat, minTopUp: nat, perUnit: nat)
    requires 0 < perUnit < 2 * ONE
    ensures PassesMinimum(tokens, minTopUp, perUnit) <==> Units(tokens, perUnit) >= minTopUp
  {
    if PassesMinimum(tokens, minTopUp, perUnit) {
      MinimumIsCredited(tokens, minTopUp, perUnit);
    } else if Units(tokens, perUnit) >= minTopUp {
      UsualUnitsAreExact(tokens, perUnit);
      Times(minTopUp, Units(tokens, perUnit), perUnit);
    }
  }

  /** With a larger quota per unit an order can be credited more than was asked for. */
  lemma HugeUnitCreditsMore()
    ensures Credited(2 * ONE - 1, 2 * ONE) == 2 * ONE
  {
    UnitsSplit(2 * ONE - 1, 2 * ONE, ONE);
  }
}
