/**
  * Share arithmetic, common/type_convert.go. cosmos.Dec is a count of 10^-18 units: Quo truncates to
  * 18 extra digits and rounds those away half to even, and RoundInt rounds half to even.
  */
module Share {
  const UNIT: nat := 1_000_000_000_000_000_000
  const HALF_UNIT: nat := 500_000_000_000_000_000

  /** Drops 18 digits, half to even. */
  function Chop(n: nat): nat {
    var q, r := n / UNIT, n % UNIT;
    if r < HALF_UNIT then q else if r > HALF_UNIT then q + 1 else if q % 2 == 0 then q else q + 1
  }

  function Quo(d: nat, e: nat): nat
    requires e > 0
  {
    Chop(d * UNIT * UNIT / e)
  }

  /**
    * Exclusive bounds: of a decimal read from text, of a quotient, and of a result. Beyond them the
    * library panics, which GetUncappedShare turns into zero, as it does a division by zero.
    */
  datatype Limits = Limits(text: nat, quotient: nat, result: nat) {
    /** Quotients have at least the range of decimals from text, results that of their whole part. */
    predicate Sane() { text <= quotient && text <= result * UNIT }

    predicate Fits(x: nat) { x * UNIT < text }
  }

  function GetUncappedShare(part: nat, total: nat, allocation: nat, lim: Limits): nat {
    if part == 0 || total == 0 then 0
    else if !lim.Fits(allocation) || !lim.Fits(part) || !lim.Fits(total) then 0
    else
      var ratio := Quo(total * UNIT, part * UNIT);
      if ratio >= lim.quotient || ratio == 0 then 0
      else
        var share := Quo(allocation * UNIT, ratio);
        if share >= lim.quotient || Chop(share) >= lim.result then 0 else Chop(share)
  }

  function GetSafeShare(part: nat, total: nat, allocation: nat, lim: Limits): nat {
    GetUncappedShare(if part >= total then total else part, total, allocation, lim)
  }

  // ---------- rounding ----------

  lemma ChopNear(n: nat)
    ensures 2 * UNIT * Chop(n) <= 2 * n + UNIT && 2 * n <= 2 * UNIT * Chop(n) + UNIT
  {
  }

  lemma ChopMonotone(m: nat, n: nat)
    requires m <= n
    ensures Chop(m) <= Chop(n)
  {
  }

  lemma ChopExact(k: nat)
    ensures Chop(k * UNIT) == k
  {
  }

  lemma DivBounds(n: nat, e: nat)
    requires e > 0
    ensures (n / e) * e <= n < (n / e) * e + e
  {
  }

  lemma DivIff(n: nat, e: nat, k: nat)
    requires e > 0
    ensures k <= n / e <==> k * e <= n
  {
    var q := n / e;
    DivBounds(n, e);
    if k <= q {
      MulLe(k, q, e);
    } else {
      MulLe(q + 1, k, e);
      assert (q + 1) * e == q * e + e;
    }
  }

  lemma DivMonotone(m: nat, n: nat, d: nat, e: nat)
    requires m <= n && 0 < e <= d
    ensures m / d <= n / e
  {
    DivBounds(m, d);
    MulLe(e, d, m / d);
    DivIff(n, e, m / d);
  }

  lemma MulLe(a: int, b: int, c: int)
    requires a <= b && c >= 0
    ensures a * c <= b * c && c * a <= c * b
  {
  }

  lemma DivUnit(n: nat, e: nat)
    requires e > 0
    ensures (n * UNIT) / (e * UNIT) == n / e
  {
    var q, p := (n * UNIT) / (e * UNIT), n / e;
    DivIff(n * UNIT, e * UNIT, p);
    DivIff(n * UNIT, e * UNIT, q);
    DivIff(n, e, p);
    DivIff(n, e, q);
    assert p * (e * UNIT) == (p * e) * UNIT && q * (e * UNIT) == (q * e) * UNIT;
  }

  // ---------- the share of a part within the total ----------

  /** The ratio total / part in units. */
  function Ratio(part: nat, total: nat): nat
    requires part > 0
  {
    Chop(total * UNIT * UNIT / part)
  }

  function Scaled(allocation: nat, ratio: nat): nat
    requires ratio > 0
  {
    Chop(allocation * UNIT * UNIT * UNIT / ratio)
  }

  lemma RatioFacts(part: nat, total: nat)
    requires 0 < part <= total
    ensures Quo(total * UNIT, part * UNIT) == Ratio(part, total)
    ensures UNIT <= Ratio(part, total) <= total * UNIT
    ensures part == total ==> Ratio(part, total) == UNIT
  {
    var n := total * UNIT * UNIT;
    assert total * UNIT * UNIT * UNIT == n * UNIT;
    DivUnit(n, part);
    DivMonotone(n, n, part, 1);
    ChopMonotone(n / part, n);
    ChopExact(total * UNIT);
    var one := part * UNIT * UNIT;
    DivMonotone(one, n, part, part);
    DivSelf(part);
    ChopMonotone(one / part, n / part);
    ChopExact(UNIT);
  }

  lemma DivSelf(part: nat)
    requires part > 0
    ensures (part * UNIT * UNIT) / part == UNIT * UNIT
  {
  }

  lemma ScaledFacts(allocation: nat, ratio: nat)
    requires ratio >= UNIT
    ensures Quo(allocation * UNIT, ratio) == Scaled(allocation, ratio) <= allocation * UNIT
    ensures ratio == UNIT ==> Scaled(allocation, ratio) == allocation * UNIT
  {
    var n := allocation * UNIT * UNIT * UNIT;
    DivMonotone(n, n, ratio, UNIT);
    assert n / UNIT == allocation * UNIT * UNIT;
    ChopMonotone(n / ratio, n / UNIT);
    ChopExact(allocation * UNIT);
  }

  /** GetSafeShare when every input fits: no later step can overflow or divide by zero. */
  lemma SafeShareIs(part: nat, total: nat, allocation: nat, lim: Limits)
    requires lim.Sane() && lim.Fits(total) && lim.Fits(allocation) && total > 0 && part > 0
    ensures var p := if part >= total then total else part;
            && Ratio(p, total) >= UNIT
            && GetSafeShare(part, total, allocation, lim) == Chop(Scaled(allocation, Ratio(p, total)))
  {
    var p := if part >= total then total else part;
    RatioFacts(p, total);
    ScaledFacts(allocation, Ratio(p, total));
    ChopMonotone(Scaled(allocation, Ratio(p, total)), allocation * UNIT);
    ChopExact(allocation);
    hide Chop, Quo, Ratio, Scaled;
    assert p * UNIT <= total * UNIT;
  }

  /** Never more than the allocation, whatever the inputs. */
  lemma NeverMore(part: nat, total: nat, allocation: nat, lim: Limits)
    requires lim.Sane()
    ensures GetSafeShare(part, total, allocation, lim) <= allocation
  {
    if part > 0 && total > 0 && lim.Fits(total) && lim.Fits(allocation) {
      var p := if part >= total then total else part;
      SafeShareIs(part, total, allocation, lim);
      ScaledFacts(allocation, Ratio(p, total));
      ChopMonotone(Scaled(allocation, Ratio(p, total)), allocation * UNIT);
      ChopExact(allocation);
      hide Chop, Ratio, Scaled;
    }
  }

  /** All of it for the whole: exactly then when the numbers fit. */
  lemma WholeShare(part: nat, total: nat, allocation: nat, lim: Limits)
    requires lim.Sane() && part >= total > 0 && allocation > 0
    ensures GetSafeShare(part, total, allocation, lim) == allocation <==> lim.Fits(total) && lim.Fits(allocation)
  {
    if lim.Fits(total) && lim.Fits(allocation) {
      SafeShareIs(part, total, allocation, lim);
      RatioFacts(total, total);
      ScaledFacts(allocation, UNIT);
      ChopExact(allocation);
      hide Chop, Ratio, Scaled;
    }
  }

  /** A larger part of a larger allocation is no smaller. */
  lemma Monotone(part: nat, part': nat, total: nat, allocation: nat, allocation': nat, lim: Limits)
    requires lim.Sane() && lim.Fits(total) && lim.Fits(allocation')
    requires part <= part' && allocation <= allocation'
    ensures GetSafeShare(part, total, allocation, lim) <= GetSafeShare(part', total, allocation', lim)
  {
    if part > 0 && total > 0 {
      var p, p' := if part >= total then total else part, if part' >= total then total else part';
      assert allocation * UNIT <= allocation' * UNIT;
      SafeShareIs(part, total, allocation, lim);
      SafeShareIs(part', total, allocation', lim);
      RatioAntitone(p, p', total);
      var r, r' := Ratio(p, total), Ratio(p', total);
      ScaledMonotone(allocation, allocation', r, r');
      ChopMonotone(Scaled(allocation, r), Scaled(allocation', r'));
      hide Chop, Ratio, Scaled, GetUncappedShare;
    }
  }

  lemma RatioAntitone(p: nat, p': nat, total: nat)
    requires 0 < p <= p'
    ensures Ratio(p', total) <= Ratio(p, total)
  {
    var n := total * UNIT * UNIT;
    DivMonotone(n, n, p', p);
    ChopMonotone(n / p', n / p);
  }

  lemma ScaledMonotone(a: nat, a': nat, r: nat, r': nat)
    requires a <= a' && 0 < r' <= r
    ensures Scaled(a, r) <= Scaled(a', r')
  {
    var n, n' := a * UNIT * UNIT * UNIT, a' * UNIT * UNIT * UNIT;
    DivMonotone(n, n', r, r');
    ChopMonotone(n / r, n' / r');
  }
}
