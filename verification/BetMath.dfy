/** Decimal arithmetic of the betting slip. The decimal library keeps 20 significant digits and
    rounds half-up; scaling by a power of ten does not change which digits are significant, so a
    value is modelled by its integer coefficient at the scale of the exact product. */
module BetMath {
  const DIGITS_LIMIT := 100_000_000_000_000_000_000  // 10^20

  /** Worth of one unit in the 20th significant digit. */
  function Ulp(c: nat): (u: nat)
    ensures u >= 1
    ensures c < DIGITS_LIMIT * u
    ensures u == 1 || c >= DIGITS_LIMIT / 10 * u
  {
    if c < DIGITS_LIMIT then 1 else 10 * Ulp(c / 10)
  }

  function RoundHalfUp(c: nat, unit: nat): nat
    requires unit >= 1
  {
    (c + unit / 2) / unit
  }

  function Round20(c: nat): nat {
    RoundHalfUp(c, Ulp(c)) * Ulp(c)
  }

  function Pow(b: nat, e: nat): (r: nat)
    ensures b >= 1 ==> r >= 1
  {
    if e == 0 then 1 else b * Pow(b, e - 1)
  }

  /** The running product, rounded after every multiplication; coefficient at scale 1000^|prices|. */
  function Product20(prices: seq<nat>): nat {
    if prices == [] then 1
    else Round20(Product20(prices[..|prices| - 1]) * prices[|prices| - 1])
  }

  /** The exact product at the same scale. */
  function ExactProduct(prices: seq<nat>): nat {
    if prices == [] then 1
    else ExactProduct(prices[..|prices| - 1]) * prices[|prices| - 1]
  }

  /** `toFixed(3)` of the product, in thousandths. */
  function CombinedOdds(prices: seq<nat>): nat {
    if prices == [] then 1000
    else RoundHalfUp(Product20(prices), Pow(1000, |prices| - 1))
  }

  /** Stake in cents times odds in thousandths, floored to cents. */
  function PotentialPayout(stake: nat, odds: nat): nat {
    Round20(stake * odds) / 1000
  }

  /** The payout is the exact product floored to cents. */
  predicate ExactFloor(stake: nat, odds: nat) {
    PotentialPayout(stake, odds) * 1000 <= stake * odds < (PotentialPayout(stake, odds) + 1) * 1000
  }

  /** The nearest multiple of the unit, ties upwards. */
  lemma RoundHalfUpNear(c: nat, unit: nat)
    requires unit >= 1
    ensures 2 * c - unit < 2 * (RoundHalfUp(c, unit) * unit) <= 2 * c + unit
  {
    var n := c + unit / 2;
    assert n == n / unit * unit + n % unit;
  }

  /** Twice 10^19: one rounding moves a value by at most one part in it. */
  const HALF_ULP_PARTS := 20_000_000_000_000_000_000

  lemma ScaleError(r: nat, c: nat, u: nat)
    requires 2 * c - u <= 2 * r <= 2 * c + u
    requires c >= 10_000_000_000_000_000_000 * u
    ensures HALF_ULP_PARTS * r <= (HALF_ULP_PARTS + 1) * c
    ensures HALF_ULP_PARTS * r >= (HALF_ULP_PARTS - 1) * c
  {}

  /** One rounding moves a value by at most one part in 2 * 10^19, and not at all below 10^20. */
  lemma Round20Near(c: nat)
    ensures HALF_ULP_PARTS * Round20(c) <= (HALF_ULP_PARTS + 1) * c
    ensures HALF_ULP_PARTS * Round20(c) >= (HALF_ULP_PARTS - 1) * c
    ensures c < DIGITS_LIMIT ==> Round20(c) == c
  {
    var u := Ulp(c);
    if c >= DIGITS_LIMIT {
      RoundHalfUpNear(c, u);
      ScaleError(Round20(c), c, u);
    }
  }

  lemma MulMono(a: int, b: int, c: nat)
    requires a <= b
    ensures a * c <= b * c
  {}

  // Payout cap

  const EXACT_CAP := 100_000_000_000_000_000  // 10^15 in cents

  /** Below 10^20 the product is exact. From there on rounding works in steps of ten or more, and a
      payout of at most 10^17 cents still leaves the floor right. */
  lemma RoundedFloor(c: nat)
    requires Round20(c) / 1000 <= EXACT_CAP
    ensures Round20(c) / 1000 * 1000 <= c < (Round20(c) / 1000 + 1) * 1000
  {
    Round20Near(c);
    if c >= DIGITS_LIMIT {
      assert Ulp(c) == 10;
    }
  }

  /** A payout cap makes every quote that passes it an exact floor of stake times odds, whatever
      the 20-digit rounding did, if and only if the cap is at most 10^15; and above it there are
      already odds of at least 1 for which the floor is wrong. */
  lemma CapGuardsExactness(cap: nat)
    ensures (forall stake: nat, odds: nat :: PotentialPayout(stake, odds) <= cap ==> ExactFloor(stake, odds)) <==> cap <= EXACT_CAP
    ensures (forall stake: nat, odds: nat :: odds >= 1000 && PotentialPayout(stake, odds) <= cap ==> ExactFloor(stake, odds))
            <==> cap <= EXACT_CAP
  {
    if cap <= EXACT_CAP {
      forall stake: nat, odds: nat | PotentialPayout(stake, odds) <= cap ensures ExactFloor(stake, odds) {
        RoundedFloor(stake * odds);
      }
    } else {
      var stake: nat, odds: nat := 15_681_354_869_060_687, 6_377;
      assert stake * odds == DIGITS_LIMIT + 999;
      assert Ulp(DIGITS_LIMIT + 999) == 10;
      assert Round20(DIGITS_LIMIT + 999) == DIGITS_LIMIT + 1000;
      assert PotentialPayout(stake, odds) <= cap && !ExactFloor(stake, odds);
    }
  }

  // Distance of the combined odds from the exact product

  /** One more rounded multiplication: a bound acc * e <= exact * g becomes a bound on the next
      product, the two scales growing by their per-rounding factors. */
  lemma ScaleUp(next: nat, acc: nat, m: nat, e: nat, exact: nat, g: nat)
    requires HALF_ULP_PARTS * next <= (HALF_ULP_PARTS + 1) * (acc * m)
    requires acc * e <= exact * g
    ensures next * (HALF_ULP_PARTS * e) <= exact * m * ((HALF_ULP_PARTS + 1) * g)
  {
    MulMono(HALF_ULP_PARTS * next, (HALF_ULP_PARTS + 1) * (acc * m), e);
    MulMono(acc * e, exact * g, m);
  }

  lemma ScaleDown(next: nat, acc: nat, m: nat, e: nat, exact: nat, g: nat)
    requires HALF_ULP_PARTS * next >= (HALF_ULP_PARTS - 1) * (acc * m)
    requires acc * e >= exact * g
    ensures next * (HALF_ULP_PARTS * e) >= exact * m * ((HALF_ULP_PARTS - 1) * g)
  {
    MulMono((HALF_ULP_PARTS - 1) * (acc * m), HALF_ULP_PARTS * next, e);
    MulMono(exact * g, acc * e, m);
  }

  lemma FirstProduct(prices: seq<nat>)
    requires |prices| == 1 && prices[0] < DIGITS_LIMIT
    ensures Product20(prices) == prices[0] == ExactProduct(prices)
  {
    assert prices[..0] == [];
    Round20Near(1 * prices[0]);
  }

  /** After n prices the running product is off by at most n - 1 roundings, each of relative size
      one part in 2 * 10^19. */
  lemma {:induction false} ProductErrorAbove(prices: seq<nat>, k: nat)
    requires |prices| == k + 1 && forall i :: 0 <= i < |prices| ==> prices[i] < DIGITS_LIMIT
    ensures Product20(prices) * Pow(HALF_ULP_PARTS, k) <= ExactProduct(prices) * Pow(HALF_ULP_PARTS + 1, k)
  {
    hide Round20;
    if k == 0 {
      FirstProduct(prices);
    } else {
      var front, last := prices[..k], prices[k];
      ProductErrorAbove(front, k - 1);
      Round20Near(Product20(front) * last);
      ScaleUp(Product20(prices), Product20(front), last, Pow(HALF_ULP_PARTS, k - 1),
              ExactProduct(front), Pow(HALF_ULP_PARTS + 1, k - 1));
    }
  }

  lemma {:induction false} ProductErrorBelow(prices: seq<nat>, k: nat)
    requires |prices| == k + 1 && forall i :: 0 <= i < |prices| ==> prices[i] < DIGITS_LIMIT
    ensures Product20(prices) * Pow(HALF_ULP_PARTS, k) >= ExactProduct(prices) * Pow(HALF_ULP_PARTS - 1, k)
  {
    hide Round20;
    if k == 0 {
      FirstProduct(prices);
    } else {
      var front, last := prices[..k], prices[k];
      ProductErrorBelow(front, k - 1);
      Round20Near(Product20(front) * last);
      ScaleDown(Product20(prices), Product20(front), last, Pow(HALF_ULP_PARTS, k - 1),
                ExactProduct(front), Pow(HALF_ULP_PARTS - 1, k - 1));
    }
  }

  /** Combined odds of n legs against the exact product P of the prices: they differ by at most half
      a thousandth plus P * ((1 + e)^(n-1) - 1) above and P * (1 - (1 - e)^(n-1)) below, where e is
      5 * 10^-20. Multiplied out, with n - 1 = k and everything at the scale of P. */
  lemma CombinedOddsError(prices: seq<nat>)
    requires |prices| >= 1 && forall i :: 0 <= i < |prices| ==> prices[i] < DIGITS_LIMIT
    ensures var k := |prices| - 1; var unit := Pow(1000, k);
            2 * (CombinedOdds(prices) * unit) * Pow(HALF_ULP_PARTS, k)
            <= 2 * (ExactProduct(prices) * Pow(HALF_ULP_PARTS + 1, k)) + unit * Pow(HALF_ULP_PARTS, k)
    ensures var k := |prices| - 1; var unit := Pow(1000, k);
            2 * (CombinedOdds(prices) * unit) * Pow(HALF_ULP_PARTS, k)
            >= 2 * (ExactProduct(prices) * Pow(HALF_ULP_PARTS - 1, k)) - unit * Pow(HALF_ULP_PARTS, k)
  {
    var k := |prices| - 1;
    ProductErrorAbove(prices, k);
    ProductErrorBelow(prices, k);
    RoundHalfUpNear(Product20(prices), Pow(1000, k));
    RoundedBound(CombinedOdds(prices) * Pow(1000, k), Product20(prices), Pow(1000, k), Pow(HALF_ULP_PARTS, k));
  }

  lemma RoundedBound(rounded: nat, acc: nat, unit: nat, e: nat)
    requires 2 * acc - unit <= 2 * rounded <= 2 * acc + unit
    ensures 2 * (acc * e) - unit * e <= 2 * rounded * e <= 2 * (acc * e) + unit * e
  {
    MulMono(2 * rounded, 2 * acc + unit, e);
    MulMono(2 * acc - unit, 2 * rounded, e);
  }

  // Combined odds against the largest leg price

  lemma {:induction false} UlpIsPowerOfTen(c: nat) returns (j: nat)
    ensures Ulp(c) == Pow(10, j)
  {
    if c < DIGITS_LIMIT {
      j := 0;
    } else {
      var i := UlpIsPowerOfTen(c / 10);
      j := i + 1;
    }
  }

  lemma {:induction false} PowAdd(b: nat, i: nat, j: nat)
    ensures Pow(b, i + j) == Pow(b, i) * Pow(b, j)
  {
    if i == 0 {
    } else {
      PowAdd(b, i - 1, j);
      assert b * (Pow(b, i - 1) * Pow(b, j)) == b * Pow(b, i - 1) * Pow(b, j);
    }
  }

  lemma {:induction false} ThousandPow(k: nat)
    ensures Pow(1000, k) == Pow(10, 3 * k)
  {
    if k > 0 {
      ThousandPow(k - 1);
      PowAdd(10, 3, 3 * (k - 1));
      assert Pow(10, 3) == 1000 by {
        assert Pow(10, 1) == 10 && Pow(10, 2) == 100;
      }
    }
  }

  /** Rounding never falls below a 20-digit value that the argument reaches. */
  lemma RoundKeepsFloor(a: nat, i: nat, c: nat)
    requires a < DIGITS_LIMIT && a * Pow(10, i) <= c
    ensures a * Pow(10, i) <= Round20(c)
  {
    var u := Ulp(c);
    var j := UlpIsPowerOfTen(c);
    if j <= i {
      PowAdd(10, j, i - j);
      FineUnit(a, Pow(10, i), u, Pow(10, i - j), c);
    } else {
      PowAdd(10, 1 + i, j - i - 1);
      CoarseUnit(a, Pow(10, i), u, Pow(10, j - i - 1), c);
    }
  }

  lemma FineUnit(a: nat, p: nat, u: nat, w: nat, c: nat)
    requires u >= 1 && p == u * w && a * p <= c
    ensures a * p <= RoundHalfUp(c, u) * u
  {
    Reassociate(a, u, w);
    FloorToUnit(a * w, c, u);
  }

  lemma CoarseUnit(a: nat, p: nat, u: nat, w: nat, c: nat)
    requires u >= 1 && w >= 1 && u == 10 * p * w && a < DIGITS_LIMIT && DIGITS_LIMIT / 10 * u <= c
    ensures a * p <= RoundHalfUp(c, u) * u
  {
    MulMono(1, w, 10 * p);
    FloorToUnit(DIGITS_LIMIT / 10, c, u);
    BelowLeadingDigits(a, p, u, RoundHalfUp(c, u) * u);
  }

  lemma Reassociate(a: nat, u: nat, w: nat)
    ensures a * (u * w) == a * w * u
  {}

  lemma BelowLeadingDigits(a: nat, p: nat, u: nat, r: nat)
    requires a < DIGITS_LIMIT && 10 * p <= u && DIGITS_LIMIT / 10 * u <= r
    ensures a * p <= r
  {
    MulMono(a, DIGITS_LIMIT, p);
  }

  lemma NonNegativeFactor(k: int, u: nat)
    requires u >= 1 && k * u >= 0
    ensures k >= 0
  {
    if k < 0 {
      MulMono(k, -1, u);
    }
  }

  lemma FloorToUnit(b: nat, c: nat, u: nat)
    requires u >= 1 && b * u <= c
    ensures b <= RoundHalfUp(c, u)
    ensures b * u <= RoundHalfUp(c, u) * u
  {
    var q := RoundHalfUp(c, u);
    RoundHalfUpNear(c, u);
    assert 2 * (q * u) >= 2 * (b * u) - u;
    assert (2 * q - 2 * b + 1) * u == 2 * (q * u) - 2 * (b * u) + u;
    NonNegativeFactor(2 * q - 2 * b + 1, u);
    MulMono(b, q, u);
  }

  lemma KeepScale(m: nat, below: nat, scale: nat, acc: nat, last: nat)
    requires m * below <= acc && scale == 1000 * below && last >= 1000
    ensures m * scale <= acc * last
  {
    MulMono(m * below, acc, last);
    MulMono(1000, last, m * below);
    assert m * scale == 1000 * (m * below);
  }

  /** With every price at least 1, the running product never drops below 1000^k, nor below any one
      price at that scale. */
  lemma {:induction false} ProductAboveLeg(prices: seq<nat>, i: nat)
    requires forall j :: 0 <= j < |prices| ==> 1000 <= prices[j] < DIGITS_LIMIT
    ensures Product20(prices) >= Pow(1000, |prices|)
    ensures i < |prices| ==> Product20(prices) >= prices[i] * Pow(1000, |prices| - 1)
  {
    if prices != [] {
      var front, last := prices[..|prices| - 1], prices[|prices| - 1];
      var k := |front|;
      ProductAboveLeg(front, i);
      ThousandPow(k);
      ThousandPow(k + 1);
      MulMono(Pow(1000, k), Product20(front), last);
      RoundKeepsFloor(last, 3 * k, Product20(front) * last);
      KeepScale(1, Pow(1000, k), Pow(1000, k + 1), Product20(front), last);
      RoundKeepsFloor(1, 3 * (k + 1), Product20(front) * last);
      if i < k {
        assert prices[i] == front[i];
        KeepScale(prices[i], Pow(1000, k - 1), Pow(1000, k), Product20(front), last);
        RoundKeepsFloor(prices[i], 3 * k, Product20(front) * last);
      }
    }
  }

  /** If every price is at least 1, an accumulator never pays less than its best leg alone. */
  lemma CombinedOddsAtLeastEachLeg(prices: seq<nat>, i: nat)
    requires i < |prices| && forall j :: 0 <= j < |prices| ==> 1000 <= prices[j] < DIGITS_LIMIT
    ensures CombinedOdds(prices) >= prices[i]
  {
    ProductAboveLeg(prices, i);
    FloorToUnit(prices[i], Product20(prices), Pow(1000, |prices| - 1));
  }
}
