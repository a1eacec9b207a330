/**
  * How far GetSafeShare is from the exact allocation * part / total: at most one, for every part and
  * total, up to an allocation of 10^18 + 1414213562 and not beyond.
  *
  * With a unit U of 10^18, write the ratio as U + k, the allocation as U + a and the result as
  * U + a - k + s. Both roundings then bound s by the products k * (k - a) and k * s, and the claim
  * no longer mentions part and total. It fails first where 2 * k * (a - k) comes close to U, which
  * needs a of about the square root of 2 * U.
  *
  * Products and large constants are kept apart: lemmas multiply, or they compare, but not both.
  */
module SharePrecision {
  import opened Share

  /** Largest excess over a unit for which the error stays within one. */
  const EXCESS: nat := 1_414_213_562
  const PRECISE: nat := UNIT + EXCESS

  ghost predicate Close(part: nat, total: nat, allocation: nat, share: nat) {
    (share - 1) * total <= allocation * part <= (share + 1) * total
  }

  // ---------- products ----------

  lemma Cancel(a: int, b: int, c: int)
    requires c > 0 && a * c <= b * c
    ensures a <= b
  {
    MulLe(1, if a > b then a - b else 1, c);
    assert (a - b) * c == a * c - b * c;
  }

  lemma Swap(a: int, b: int, c: int)
    ensures a * (b * c) == b * (a * c) && a * (b * c) == (a * b) * c
  {
  }

  lemma CrossAbove(e: int, w: int, c: int, t: int, p: int, n: int)
    requires e >= 0 && p >= 0 && c > 0 && t * c <= p * w && e * w <= n * c
    ensures e * t <= n * p
  {
    MulLe(t * c, p * w, e);
    Swap(e, t, c);
    Swap(e, p, w);
    MulLe(e * w, n * c, p);
    Swap(p, n, c);
    assert p * (n * c) == (n * p) * c;
    Cancel(e * t, n * p, c);
  }

  lemma CrossBelow(f: int, w: int, c: int, t: int, p: int, n: int)
    requires t >= 0 && n >= 0 && w > 0 && p * w <= t * c && n * c <= f * w
    ensures n * p <= f * t
  {
    MulLe(p * w, t * c, n);
    Swap(n, p, w);
    Swap(n, t, c);
    MulLe(n * c, f * w, t);
    Swap(t, f, w);
    assert t * (f * w) == (f * t) * w;
    Cancel(n * p, f * t, w);
  }

  lemma Distribute(k: int, a: int, b: int)
    ensures k * (a + b) == k * a + k * b && k * (a - b) == k * a - k * b
  {
  }

  /** What multiplication says about z = k * (k - a), y = k * s and q = a * a. */
  predicate Products(k: int, a: int, s: int, z: int, y: int, q: int) {
    && (a + s > k ==> y >= z + k)
    && (s <= 0 ==> y <= 0) && (s < 0 ==> y <= -k)
    && (k == 0 ==> z == 0 && y == 0) && (k == 1 ==> z == 1 - a && y == s) && (k == 2 ==> z == 4 - 2 * a && y == 2 * s)
    && (a <= k ==> z >= 0) && (a >= k ==> z <= 0)
    && -16 * z - 24 * k <= 4 * q - 12 * a + 9 && -4 * z <= q
  }

  lemma ProductsHold(k: int, a: int, s: int)
    requires k >= 0
    ensures Products(k, a, s, k * (k - a), k * s, a * a)
  {
    if a + s > k { ShiftProduct(k, a, s); }
    SignProduct(k, s);
    SignProduct(k, k - a);
    SmallProducts(k, a, s);
    Squares(k, a);
  }

  lemma ShiftProduct(k: int, a: int, s: int)
    requires k >= 0 && a + s > k
    ensures k * s >= k * (k - a) + k
  {
    MulLe(k - a + 1, s, k);
    Distribute(k, k - a, 1);
  }

  lemma SignProduct(k: int, d: int)
    requires k >= 0
    ensures (d <= 0 ==> k * d <= 0) && (d >= 0 ==> k * d >= 0) && (d < 0 ==> k * d <= -k)
  {
    if d < 0 {
      MulLe(d, -1, k);
    } else {
      MulLe(0, d, k);
    }
  }

  lemma SmallProducts(k: int, a: int, s: int)
    ensures k == 0 ==> k * (k - a) == 0 && k * s == 0
    ensures k == 1 ==> k * (k - a) == 1 - a && k * s == s
    ensures k == 2 ==> k * (k - a) == 4 - 2 * a && k * s == 2 * s
  {
  }

  lemma Squares(k: int, a: int)
    ensures -16 * (k * (k - a)) - 24 * k <= 4 * (a * a) - 12 * a + 9
    ensures -4 * (k * (k - a)) <= a * a
  {
    var d, f := 4 * k - 2 * a + 3, 2 * k - a;
    assert d * d >= 0 && f * f >= 0;
    assert d * d == 16 * (k * (k - a)) + 24 * k + 4 * (a * a) - 12 * a + 9;
    assert f * f == 4 * (k * (k - a)) + a * a;
  }

  lemma SquareBound(a: int)
    requires 0 <= a <= EXCESS
    ensures a * a <= EXCESS * a && EXCESS * a <= EXCESS * EXCESS
  {
    MulLe(a, EXCESS, a);
  }

  // ---------- what the roundings leave open ----------

  /** c is n / part rounded: floor, then 18 digits dropped. */
  lemma Near(part: nat, n: nat, q: nat, c: nat)
    requires q * part <= n < q * part + part
    requires 2 * UNIT * c <= 2 * q + UNIT && 2 * q <= 2 * UNIT * c + UNIT
    ensures 2 * UNIT * (part * c) <= 2 * n + UNIT * part && 2 * n < 2 * UNIT * (part * c) + (UNIT + 2) * part
  {
    NearProducts(part, q, c, UNIT);
    NearSum(n, part, q * part, part * c, part * (2 * UNIT * c - 2 * q));
  }

  lemma NearProducts(part: nat, q: nat, c: nat, unit: nat)
    requires 2 * unit * c <= 2 * q + unit && 2 * q <= 2 * unit * c + unit
    ensures part * (2 * unit * c - 2 * q) == 2 * unit * (part * c) - 2 * (q * part)
    ensures -(unit * part) <= part * (2 * unit * c - 2 * q) <= unit * part
  {
    var d := 2 * unit * c - 2 * q;
    MulLe(d, unit, part);
    MulLe(-(unit as int), d, part);
    assert part * (-(unit as int)) == -(unit * part);
    Distribute(part, 2 * unit * c, 2 * q);
    assert part * (2 * unit * c) == 2 * unit * (part * c);
  }

  lemma NearSum(n: int, part: int, qp: int, pc: int, d: int)
    requires qp <= n < qp + part && d == 2 * UNIT * pc - 2 * qp && -(UNIT * part) <= d <= UNIT * part
    ensures 2 * UNIT * pc <= 2 * n + UNIT * part && 2 * n < 2 * UNIT * pc + (UNIT + 2) * part
  {
  }

  /** The ratio against the exact total / part. */
  lemma RatioNear(part: nat, total: nat)
    requires part > 0
    ensures var x := part * Ratio(part, total);
            && 2 * UNIT * x <= 2 * total * UNIT * UNIT + UNIT * part
            && 2 * total * UNIT * UNIT < 2 * UNIT * x + (UNIT + 2) * part
  {
    var n := total * UNIT * UNIT;
    var q, c := n / part, Ratio(part, total);
    DivBounds(n, part);
    ChopNear(q);
    hide Chop, Ratio;
    Near(part, n, q, c);
  }

  /** The result before its last rounding, against the exact allocation / ratio. */
  lemma ScaledNear(allocation: nat, ratio: nat)
    requires ratio > 0
    ensures var x := ratio * Scaled(allocation, ratio);
            && 2 * UNIT * x <= 2 * allocation * UNIT * UNIT * UNIT + UNIT * ratio
            && 2 * allocation * UNIT * UNIT * UNIT < 2 * UNIT * x + (UNIT + 2) * ratio
  {
    var a := allocation * UNIT;
    RatioNear(ratio, a);
    assert a * UNIT * UNIT == allocation * UNIT * UNIT * UNIT;
    assert Ratio(ratio, a) == Scaled(allocation, ratio);
  }

  /** The bounds of both roundings, with z for k * (k - a) and y for k * s. */
  predicate Rounded(k: int, s: int, z: int, y: int) {
    && UNIT * UNIT * (2 * s - 1) + UNIT * (2 * y - 2 * z - k) <= UNIT + k
    && 0 <= UNIT * UNIT * UNIT * (2 * s + 1) + UNIT * UNIT * (2 * y - 2 * z + k) + UNIT * UNIT + 2 * UNIT + UNIT * k + 2 * k
  }

  /** `x` is ratio * scaled and `v` is ratio * result. */
  lemma RoundedFrom(k: int, a: int, s: int, z: int, y: int, x: int, v: int)
    requires 2 * UNIT * x <= 2 * (UNIT + a) * UNIT * UNIT * UNIT + UNIT * (UNIT + k)
    requires 2 * (UNIT + a) * UNIT * UNIT * UNIT <= 2 * UNIT * x + (UNIT + 2) * (UNIT + k)
    requires 2 * UNIT * v <= 2 * x + UNIT * (UNIT + k) && 2 * x <= 2 * UNIT * v + UNIT * (UNIT + k)
    requires v == UNIT * UNIT + UNIT * (a + s) - z + y
    ensures Rounded(k, s, z, y)
  {
  }

  lemma ResultProduct(k: int, a: int, s: int)
    ensures (UNIT + k) * (UNIT + a - k + s) == UNIT * UNIT + UNIT * (a + s) - k * (k - a) + k * s
  {
    var u: int := UNIT;
    GeneralProduct(u, k, a, s);
  }

  lemma GeneralProduct(u: int, k: int, a: int, s: int)
    ensures (u + k) * (u + a - k + s) == u * u + u * (a + s) - k * (k - a) + k * s
  {
  }

  // ---------- the two inequalities in k, a and s ----------

  /** 2 * k * (a - k) stays clear of a unit. */
  lemma Clear(k: int, a: int, s: int, z: int, y: int, q: int)
    requires k >= 0 && a <= EXCESS && Products(k, a, s, z, y, q) && (a >= 0 ==> q <= EXCESS * a <= EXCESS * EXCESS)
    ensures -2 * z - 3 * k + a <= UNIT - 1_000_000_000
    ensures -2 * z <= UNIT - 500_000_000
  {
  }

  lemma SmallShift(k: int, a: int, s: int, z: int, y: int, q: int)
    requires k >= 0 && s >= 1 && Products(k, a, s, z, y, q) && Rounded(k, s, z, y)
    ensures a + s <= k && (k < 2 ==> k == 1 && a + s <= 0)
  {
  }

  lemma AboveCore(k: int, a: int, s: int, z: int, y: int, q: int)
    requires k >= 0 && a <= EXCESS && Products(k, a, s, z, y, q) && (a >= 0 ==> q <= EXCESS * a <= EXCESS * EXCESS)
    requires Rounded(k, s, z, y)
    ensures UNIT * UNIT * (2 * s - 1) + UNIT * (2 * y - 2 * z - 3 * k + a + s + 1) + 2 * (a - k + s - 1) <= 0
  {
    if s <= 0 {
      Clear(k, a, s, z, y, q);
    } else {
      SmallShift(k, a, s, z, y, q);
    }
  }

  lemma BelowCore(k: int, a: int, s: int, z: int, y: int, q: int)
    requires k >= 1 && a <= EXCESS && Products(k, a, s, z, y, q) && (a >= 0 ==> q <= EXCESS * a <= EXCESS * EXCESS)
    requires Rounded(k, s, z, y)
    ensures 0 <= UNIT * (2 * s + 1) + 2 * y - 2 * z + 3 * k - a - s - 1
  {
    if s >= 1 { SmallShift(k, a, s, z, y, q); }
    if a + s <= k {
      BelowSmall(k, a, s, z, y, q);
    } else {
      // here k < a, so the product is negative and s is zero
      Clear(k, a, s, z, y, q);
    }
  }

  lemma BelowSmall(k: int, a: int, s: int, z: int, y: int, q: int)
    requires k >= 1 && a + s <= k && Products(k, a, s, z, y, q) && Rounded(k, s, z, y)
    ensures 0 <= UNIT * (2 * s + 1) + 2 * y - 2 * z + 3 * k - a - s - 1
  {
    var c := UNIT * (2 * s + 1) + 2 * y - 2 * z;
    assert UNIT * UNIT * (c + k + 1) + 2 * UNIT + UNIT * k + 2 * k >= 0;
    if k >= 3 { Lift(k, c); }
  }

  lemma Lift(k: int, c: int)
    requires k >= 3 && UNIT * UNIT * (c + k + 1) + 2 * UNIT + UNIT * k + 2 * k >= 0
    ensures c >= 1 - 2 * k
  {
  }

  // ---------- the claim without part and total ----------

  /** `e` is the result less one, `ke` is k times it, and `ew` is it times 2 * UNIT * ratio + UNIT + 2. */
  lemma FinishAbove(k: int, a: int, s: int, z: int, y: int, e: int, ke: int, ew: int)
    requires UNIT * UNIT * (2 * s - 1) + UNIT * (2 * y - 2 * z - 3 * k + a + s + 1) + 2 * (a - k + s - 1) <= 0
    requires e == UNIT + a - k + s - 1 && ke == UNIT * k - z + y - k
    requires ew == 2 * UNIT * UNIT * e + 2 * UNIT * ke + UNIT * e + 2 * e
    ensures ew <= 2 * UNIT * UNIT * (UNIT + a)
  {
  }

  lemma FinishBelow(k: int, a: int, s: int, z: int, y: int, f: int, kf: int, fw: int)
    requires 0 <= UNIT * (2 * s + 1) + 2 * y - 2 * z + 3 * k - a - s - 1
    requires f == UNIT + a - k + s + 1 && kf == UNIT * k - z + y + k && fw == 2 * UNIT * f + 2 * kf - f
    ensures 2 * UNIT * (UNIT + a) <= fw
  {
  }

  lemma Widths(e: int, k: int, u: int)
    ensures e * (2 * u * (u + k) + u + 2) == 2 * u * u * e + 2 * u * (k * e) + u * e + 2 * e
    ensures e * (2 * (u + k) - 1) == 2 * u * e + 2 * (k * e) - e
  {
    assert e * (u + k) == u * e + k * e;
    Distribute(e, 2 * u * (u + k), u + 2);
    assert e * (2 * u * (u + k)) == 2 * u * (e * (u + k));
    Distribute(2 * u, u * e, k * e);
  }

  lemma TimesK(k: int, a: int, s: int, u: int, d: int)
    ensures k * (u + a - k + s + d) == u * k - k * (k - a) + k * s + d * k
  {
  }

  /** The roundings of an allocation and a ratio obey the bounds. */
  lemma RoundedFor(allocation: nat, ratio: nat, res: nat) returns (z: int, y: int)
    requires ratio >= UNIT && res == Chop(Scaled(allocation, ratio))
    ensures var k, a, s := ratio - UNIT, allocation - UNIT, res - allocation + ratio - UNIT;
            Rounded(k, s, z, y) && z == k * (k - a) && y == k * s
  {
    var scaled := Scaled(allocation, ratio);
    ScaledNear(allocation, ratio);
    ChopNear(scaled);
    hide Chop, Scaled;
    var k, a, s := ratio - UNIT, allocation - UNIT, res - allocation + ratio - UNIT;
    z, y := k * (k - a), k * s;
    ScaledProduct(ratio, scaled, res, UNIT);
    ResultProduct(k, a, s);
    RoundedFrom(k, a, s, z, y, ratio * scaled, ratio * res);
  }

  lemma BoundedAbove(allocation: nat, ratio: nat, res: nat)
    requires ratio >= UNIT && allocation <= PRECISE && res == Chop(Scaled(allocation, ratio))
    ensures (res - 1) * (2 * UNIT * ratio + UNIT + 2) <= allocation * (2 * UNIT * UNIT)
  {
    hide Rounded, Products, Chop, Scaled;
    var k, a, s := ratio - UNIT, allocation - UNIT, res - allocation + ratio - UNIT;
    var z, y := RoundedFor(allocation, ratio, res);
    var q, e := a * a, res - 1;
    var ke, ew := k * e, e * (2 * UNIT * ratio + UNIT + 2);
    AboveProducts(k, a, s, e, ratio, UNIT);
    if a >= 0 { SquareBound(a); }
    AboveCore(k, a, s, z, y, q);
    FinishAbove(k, a, s, z, y, e, ke, ew);
  }

  lemma AboveProducts(k: int, a: int, s: int, e: int, ratio: int, u: int)
    requires k >= 0 && ratio == u + k && e == u + a - k + s - 1
    ensures Products(k, a, s, k * (k - a), k * s, a * a)
    ensures k * e == u * k - k * (k - a) + k * s - k
    ensures e * (2 * u * ratio + u + 2) == 2 * u * u * e + 2 * u * (k * e) + u * e + 2 * e
  {
    ProductsHold(k, a, s);
    hide Products;
    TimesK(k, a, s, u, -1);
    Widths(e, k, u);
  }

  lemma BoundedBelow(allocation: nat, ratio: nat, res: nat)
    requires ratio > UNIT && allocation <= PRECISE && res == Chop(Scaled(allocation, ratio))
    ensures allocation * (2 * UNIT) <= (res + 1) * (2 * ratio - 1)
  {
    hide Rounded, Products, Chop, Scaled;
    var k, a, s := ratio - UNIT, allocation - UNIT, res - allocation + ratio - UNIT;
    var z, y := RoundedFor(allocation, ratio, res);
    ProductsHold(k, a, s);
    if a >= 0 { SquareBound(a); }
    BelowCore(k, a, s, z, y, a * a);
    TimesK(k, a, s, UNIT, 1);
    Widths(res + 1, k, UNIT);
    FinishBelow(k, a, s, z, y, res + 1, k * (res + 1), (res + 1) * (2 * ratio - 1));
  }

  lemma RatioOne(allocation: nat)
    ensures Chop(Scaled(allocation, UNIT)) == allocation
  {
    ScaledFacts(allocation, UNIT);
    ChopExact(allocation);
  }

  lemma ScaledProduct(ratio: nat, scaled: nat, res: nat, unit: nat)
    requires 2 * unit * res <= 2 * scaled + unit && 2 * scaled <= 2 * unit * res + unit
    ensures 2 * unit * (ratio * res) <= 2 * (ratio * scaled) + unit * ratio
    ensures 2 * (ratio * scaled) <= 2 * unit * (ratio * res) + unit * ratio
  {
    NearProducts(ratio, scaled, res, unit);
    assert scaled * ratio == ratio * scaled;
  }

  // ---------- the bound ----------

  lemma NotAbove(part: nat, total: nat, allocation: nat, ratio: nat, share: nat, u: nat)
    requires u > 0 && 2 * u * (total * u) <= 2 * u * (part * ratio) + (u + 2) * part
    requires (share - 1) * (2 * u * ratio + u + 2) <= allocation * (2 * u * u)
    ensures (share - 1) * total <= allocation * part
  {
    if share == 0 {
      MulLe(0, part, allocation);
    } else {
      PartWidths(part, ratio, u);
      TwoUnits(total, u);
      CrossAbove(share - 1, 2 * u * ratio + u + 2, 2 * u * u, total, part, allocation);
    }
  }

  lemma TwoUnits(t: int, u: int)
    ensures t * (2 * u * u) == 2 * u * (t * u) && (u > 0 ==> 2 * u * u > 0)
  {
    Swap(t, 2 * u, u);
  }

  lemma NotBelow(part: nat, total: nat, allocation: nat, ratio: nat, share: nat, u: nat)
    requires u > 0 && ratio > 0 && 2 * u * (part * ratio) <= 2 * u * (total * u) + u * part
    requires allocation * (2 * u) <= (share + 1) * (2 * ratio - 1)
    ensures allocation * part <= (share + 1) * total
  {
    PartWidths(part, ratio, u);
    DropUnit(u, part * ratio, part, total * u);
    assert total * (2 * u) == 2 * (total * u);
    CrossBelow(share + 1, 2 * ratio - 1, 2 * u, total, part, allocation);
  }

  lemma DropUnit(u: int, x: int, p: int, y: int)
    requires u > 0 && 2 * u * x <= 2 * u * y + u * p
    ensures 2 * x - p <= 2 * y
  {
    assert (2 * x - p) * u == 2 * u * x - u * p && (2 * y) * u == 2 * u * y;
    Cancel(2 * x - p, 2 * y, u);
  }

  lemma PartWidths(part: int, ratio: int, u: int)
    ensures part * (2 * u * ratio + u + 2) == 2 * u * (part * ratio) + (u + 2) * part
    ensures part * (2 * ratio - 1) == 2 * (part * ratio) - part
  {
    Distribute(part, 2 * u * ratio, u + 2);
    assert part * (2 * u * ratio) == 2 * u * (part * ratio);
  }

  /** Within one of the exact quotient, for parts up to the total and allocations up to PRECISE. */
  lemma WithinOne(part: nat, total: nat, allocation: nat, lim: Limits)
    requires lim.Sane() && lim.Fits(total) && lim.Fits(allocation) && part <= total && total > 0 && allocation <= PRECISE
    ensures Close(part, total, allocation, GetSafeShare(part, total, allocation, lim))
  {
    hide Chop, Ratio, Scaled, GetSafeShare, GetUncappedShare, Close;
    if part > 0 {
      SafeShareIs(part, total, allocation, lim);
      RatioNear(part, total);
      var ratio := Ratio(part, total);
      var share := Chop(Scaled(allocation, ratio));
      BoundedAbove(allocation, ratio, share);
      NotAbove(part, total, allocation, ratio, share, UNIT);
      if ratio > UNIT {
        BoundedBelow(allocation, ratio, share);
        NotBelow(part, total, allocation, ratio, share, UNIT);
      } else {
        RatioOne(allocation);
        WholeBelow(part, total, allocation);
      }
      IsClose(part, total, allocation, share);
    } else {
      NothingForNothing(total, allocation, lim);
    }
  }

  lemma IsClose(part: nat, total: nat, allocation: nat, share: nat)
    requires (share - 1) * total <= allocation * part <= (share + 1) * total
    ensures Close(part, total, allocation, share)
  {
  }

  lemma WholeBelow(part: nat, total: nat, allocation: nat)
    requires part <= total
    ensures allocation * part <= (allocation + 1) * total
  {
    MulLe(part, total, allocation);
    MulLe(allocation, allocation + 1, total);
  }

  lemma NothingForNothing(total: nat, allocation: nat, lim: Limits)
    ensures Close(0, total, allocation, GetSafeShare(0, total, allocation, lim))
  {
  }

  // ---------- and not beyond ----------

  const FAR_PART: nat := 2 * UNIT
  const FAR_TOTAL: nat := 2 * UNIT + 1_414_194_617
  const FAR_RATIO: nat := UNIT + 707_097_308

  /** One more than PRECISE, and the error passes one. */
  lemma TooLarge(lim: Limits)
    requires lim.Sane() && lim.Fits(FAR_TOTAL)
    ensures !Close(FAR_PART, FAR_TOTAL, PRECISE + 1, GetSafeShare(FAR_PART, FAR_TOTAL, PRECISE + 1, lim))
  {
    hide Chop, Ratio, Scaled, GetSafeShare;
    SafeShareIs(FAR_PART, FAR_TOTAL, PRECISE + 1, lim);
    FarRatio();
    FarScaled();
  }

  lemma FarRatio()
    ensures Ratio(FAR_PART, FAR_TOTAL) == FAR_RATIO
  {
    var n := FAR_TOTAL * UNIT * UNIT;
    var q := FAR_RATIO * UNIT + HALF_UNIT;
    DivIff(n, FAR_PART, q);
    DivIff(n, FAR_PART, q + 1);
  }

  lemma FarScaled()
    ensures Chop(Scaled(PRECISE + 1, FAR_RATIO)) == UNIT + 707_116_255
  {
    var n := (PRECISE + 1) * UNIT * UNIT * UNIT;
    var q := 1_000_000_000_707_116_254_500_000_000_000_007_113_999_994_969_709_754_444;
    DivIff(n, FAR_RATIO, q);
    DivIff(n, FAR_RATIO, q + 1);
    assert Chop(q) == 1_000_000_000_707_116_254_500_000_000_000_007_114;
  }

  /** The bound is exact: all allocations up to `bound` are within one, on all inputs, iff it is at most PRECISE. */
  lemma PreciseIff(bound: nat, lim: Limits)
    requires lim.Sane() && lim.Fits(FAR_TOTAL)
    ensures (forall part: nat, total: nat, allocation: nat ::
               part <= total && total > 0 && allocation <= bound && lim.Fits(total) && lim.Fits(allocation) ==>
                 Close(part, total, allocation, GetSafeShare(part, total, allocation, lim)))
            <==> bound <= PRECISE
  {
    hide Close, GetSafeShare;
    if bound <= PRECISE {
      forall part: nat, total: nat, allocation: nat |
        part <= total && total > 0 && allocation <= bound && lim.Fits(total) && lim.Fits(allocation)
        ensures Close(part, total, allocation, GetSafeShare(part, total, allocation, lim))
      {
        WithinOne(part, total, allocation, lim);
      }
    } else {
      TooLarge(lim);
      assert lim.Fits(PRECISE + 1);
    }
  }
}
