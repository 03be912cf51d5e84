/** Fixed-point pricing: rates per million tokens of each class, one ratio, one rounding. */
module Pricing {
  import opened Bytes

  const RATIO_SCALE := 10_000
  const RATE_SCALE := 1_000_000
  const DENOM := RATE_SCALE * RATIO_SCALE

  /** What a call consumed, split by class. `total` is authoritative when the parts are all zero. */
  datatype TokenCounts = TokenCounts(input: int, output: int, cacheRead: int, cacheWrite: int, total: int) {
    predicate HasBreakdown() {
      input != 0 || output != 0 || cacheRead != 0 || cacheWrite != 0
    }

    /** The counts that are charged: the parts, or the whole total as input. */
    function Billable(): TokenCounts {
      if HasBreakdown() then this else TokenCounts(total, 0, 0, 0, 0)
    }

    predicate NonNegative() {
      input >= 0 && output >= 0 && cacheRead >= 0 && cacheWrite >= 0 && total >= 0
    }

    function Plus(other: TokenCounts): TokenCounts {
      TokenCounts(input + other.input, output + other.output, cacheRead + other.cacheRead,
                  cacheWrite + other.cacheWrite, total + other.total)
    }
  }

  datatype ModelPrice = ModelPrice(model: Bytes, input: int, output: int, cacheRead: int, cacheWrite: int)

  /** The numbers a call was charged at. */
  datatype BilledRate = BilledRate(input: int, output: int, cacheRead: int, cacheWrite: int, ratio: int) {
    predicate NonNegative() {
      input >= 0 && output >= 0 && cacheRead >= 0 && cacheWrite >= 0
    }
  }

  function FlatPrice(model: Bytes, perMillion: int): ModelPrice {
    ModelPrice(model, perMillion, perMillion, perMillion, perMillion)
  }

  function RateFor(p: ModelPrice, ratio: int): BilledRate {
    BilledRate(p.input, p.output, p.cacheRead, p.cacheWrite, ratio)
  }

  /** The charge before the ratio, in millionths of a quota unit. */
  function Charge(counts: TokenCounts, rate: BilledRate): int {
    var b := counts.Billable();
    b.input * rate.input + b.output * rate.output + b.cacheRead * rate.cacheRead + b.cacheWrite * rate.cacheWrite
  }

  function AtLeastZero(x: int): nat {
    if x < 0 then 0 else x
  }

  /** The cost before rounding, in `DENOM`-ths of a quota unit. */
  function Scaled(counts: TokenCounts, rate: BilledRate): nat {
    AtLeastZero(Charge(counts, rate)) * AtLeastZero(rate.ratio)
  }

  /** `Cost` over unbounded integers. */
  function Cost(counts: TokenCounts, rate: BilledRate): int {
    Rounded(Scaled(counts, rate))
  }

  function Rounded(scaled: nat): int {
    (scaled + DENOM / 2) / DENOM
  }

  /** `n` quota units are nearest to the exact cost, a half rounding up. */
  predicate IsNearest(n: int, scaled: nat) {
    2 * (n * DENOM - scaled) <= DENOM && 2 * (scaled - n * DENOM) < DENOM
  }

  /** The cost is the nearest whole number of quota units, and never negative, whatever the configuration. */
  lemma CostIsNearest(counts: TokenCounts, rate: BilledRate)
    ensures Cost(counts, rate) >= 0
    ensures forall n: int :: IsNearest(n, Scaled(counts, rate)) <==> n == Cost(counts, rate)
  {
  }

  /** `n` quota units are nearest to `x` ten-billionths of one, a half rounding up. */
  predicate IsNearestTo(n: int, x: int) {
    2 * (n * 10_000_000_000 - x) <= 10_000_000_000 && 2 * (x - n * 10_000_000_000) < 10_000_000_000
  }

  /**
   A total-only call is charged its whole total at the input rate; rates are per million, ratios per ten thousand.
   A rate or ratio below zero is as good as zero.
   */
  lemma TotalOnlyCost(total: nat, rate: BilledRate)
    ensures var cost := Cost(TokenCounts(0, 0, 0, 0, total), rate);
            if rate.input < 0 || rate.ratio < 0 then cost == 0
            else IsNearestTo(cost, total * rate.input * rate.ratio)
  {
    var counts := TokenCounts(0, 0, 0, 0, total);
    CostIsNearest(counts, rate);
    assert IsNearest(Cost(counts, rate), Scaled(counts, rate));
    Distribute(total, 0, rate.input);
    assert Charge(counts, rate) == total * rate.input;
    if rate.input < 0 {
      assert total * rate.input <= 0;
    }
  }

  /** A call with a breakdown is charged every class at its own rate, whatever its total. */
  lemma BreakdownCost(counts: TokenCounts, rate: BilledRate)
    requires counts.NonNegative() && rate.NonNegative() && rate.ratio >= 0
    requires counts.input != 0 || counts.output != 0 || counts.cacheRead != 0 || counts.cacheWrite != 0
    ensures var charge := counts.input * rate.input + counts.output * rate.output
                          + counts.cacheRead * rate.cacheRead + counts.cacheWrite * rate.cacheWrite;
            IsNearestTo(Cost(counts, rate), charge * rate.ratio)
  {
    CostIsNearest(counts, rate);
    assert IsNearest(Cost(counts, rate), Scaled(counts, rate));
    Distribute(counts.input, 0, rate.input);
    Distribute(counts.output, 0, rate.output);
    Distribute(counts.cacheRead, 0, rate.cacheRead);
    Distribute(counts.cacheWrite, 0, rate.cacheWrite);
  }

  lemma RoundedIsMonotone(a: nat, b: nat)
    requires a <= b
    ensures Rounded(a) <= Rounded(b)
  {
  }

  lemma ProductsGrow(a: nat, b: nat, x: nat, y: nat)
    requires a <= b && x <= y
    ensures a * x <= b * y
  {
    assert a * x <= b * x && b * x <= b * y;
  }

  predicate AtMost(a: TokenCounts, b: TokenCounts) {
    a.input <= b.input && a.output <= b.output && a.cacheRead <= b.cacheRead && a.cacheWrite <= b.cacheWrite
  }

  /** More tokens of any class never cost less. */
  lemma CostIsMonotone(a: TokenCounts, b: TokenCounts, rate: BilledRate)
    requires a.NonNegative() && b.NonNegative() && rate.NonNegative()
    requires AtMost(a.Billable(), b.Billable())
    ensures Cost(a, rate) <= Cost(b, rate)
  {
    var x, y := a.Billable(), b.Billable();
    ProductsGrow(x.input, y.input, rate.input, rate.input);
    ProductsGrow(x.output, y.output, rate.output, rate.output);
    ProductsGrow(x.cacheRead, y.cacheRead, rate.cacheRead, rate.cacheRead);
    ProductsGrow(x.cacheWrite, y.cacheWrite, rate.cacheWrite, rate.cacheWrite);
    assert 0 <= Charge(a, rate) <= Charge(b, rate);
    ProductsGrow(Charge(a, rate), Charge(b, rate), AtLeastZero(rate.ratio), AtLeastZero(rate.ratio));
    RoundedIsMonotone(Scaled(a, rate), Scaled(b, rate));
  }

  // ---------------------------------------------------------------- splitting a bill

  function SumOfCounts(pieces: seq<TokenCounts>): TokenCounts {
    if pieces == [] then TokenCounts(0, 0, 0, 0, 0) else SumOfCounts(pieces[..|pieces| - 1]).Plus(pieces[|pieces| - 1])
  }

  function SumOfCosts(pieces: seq<TokenCounts>, rate: BilledRate): int {
    if pieces == [] then 0 else SumOfCosts(pieces[..|pieces| - 1], rate) + Cost(pieces[|pieces| - 1], rate)
  }

  /** All pieces have a breakdown, or none has; all counts are non-negative. */
  predicate Alike(pieces: seq<TokenCounts>, breakdown: bool) {
    forall i :: 0 <= i < |pieces| ==> pieces[i].NonNegative() && pieces[i].HasBreakdown() == breakdown
  }

  lemma ScaledOfPlus(a: TokenCounts, b: TokenCounts, rate: BilledRate)
    requires a.NonNegative() && b.NonNegative() && rate.NonNegative()
    requires a.Plus(b).Billable() == a.Billable().Plus(b.Billable())
    ensures Scaled(a.Plus(b), rate) == Scaled(a, rate) + Scaled(b, rate)
  {
    var x, y := a.Billable(), b.Billable();
    Distribute(x.input, y.input, rate.input);
    Distribute(x.output, y.output, rate.output);
    Distribute(x.cacheRead, y.cacheRead, rate.cacheRead);
    Distribute(x.cacheWrite, y.cacheWrite, rate.cacheWrite);
    assert Charge(a.Plus(b), rate) == Charge(a, rate) + Charge(b, rate);
    Distribute(Charge(a, rate), Charge(b, rate), AtLeastZero(rate.ratio));
  }

  lemma Distribute(a: int, b: int, x: int)
    ensures (a + b) * x == a * x + b * x
    ensures a >= 0 && x >= 0 ==> a * x >= 0
    ensures b >= 0 && x >= 0 ==> b * x >= 0
  {
  }

  lemma {:induction false} SumIsAlike(pieces: seq<TokenCounts>, breakdown: bool)
    requires Alike(pieces, breakdown)
    ensures SumOfCounts(pieces).NonNegative()
    ensures SumOfCounts(pieces).HasBreakdown() == (breakdown && pieces != [])
  {
    if pieces != [] {
      SumIsAlike(pieces[..|pieces| - 1], breakdown);
    }
  }

  /** Rounding one by one and rounding once differ by at most half a unit a piece. */
  lemma {:induction false} RoundingDrift(pieces: seq<TokenCounts>, breakdown: bool, rate: BilledRate)
    requires Alike(pieces, breakdown) && rate.NonNegative()
    ensures var drift := SumOfCosts(pieces, rate) * DENOM - Scaled(SumOfCounts(pieces), rate);
            -|pieces| * DENOM <= 2 * drift <= |pieces| * DENOM
  {
    if pieces != [] {
      var front, last := pieces[..|pieces| - 1], pieces[|pieces| - 1];
      RoundingDrift(front, breakdown, rate);
      SumIsAlike(front, breakdown);
      CostIsNearest(last, rate);
      assert IsNearest(Cost(last, rate), Scaled(last, rate));
      ScaledOfPlus(SumOfCounts(front), last, rate);
      hide Cost, Scaled;
    }
  }

  /** A call billed in `n` pieces costs within (n + 1) / 2 units of the call billed whole. */
  lemma SplitBill(pieces: seq<TokenCounts>, breakdown: bool, rate: BilledRate)
    requires Alike(pieces, breakdown) && rate.NonNegative()
    ensures -(|pieces| + 1) <= 2 * (SumOfCosts(pieces, rate) - Cost(SumOfCounts(pieces), rate)) <= |pieces| + 1
  {
    RoundingDrift(pieces, breakdown, rate);
    CostIsNearest(SumOfCounts(pieces), rate);
    assert IsNearest(Cost(SumOfCounts(pieces), rate), Scaled(SumOfCounts(pieces), rate));
    WithinUnits(SumOfCosts(pieces, rate), Cost(SumOfCounts(pieces), rate), Scaled(SumOfCounts(pieces), rate), |pieces|);
    hide Cost, Scaled, SumOfCosts, SumOfCounts, IsNearest;
  }

  lemma WithinUnits(sum: int, cost: int, scaled: nat, n: int)
    requires -n * DENOM <= 2 * (sum * DENOM - scaled) <= n * DENOM && IsNearest(cost, scaled)
    ensures -(n + 1) <= 2 * (sum - cost) <= n + 1
  {
    assert -(n + 1) * DENOM <= 2 * (sum - cost) * DENOM <= (n + 1) * DENOM;
  }

  /** In two pieces the difference is at most one unit. */
  lemma TwoPieces(a: TokenCounts, b: TokenCounts, rate: BilledRate)
    requires Alike([a, b], a.HasBreakdown()) && rate.NonNegative()
    ensures -1 <= Cost(a.Plus(b), rate) - Cost(a, rate) - Cost(b, rate) <= 1
  {
    hide Cost;
    SplitBill([a, b], a.HasBreakdown(), rate);
    var zero := TokenCounts(0, 0, 0, 0, 0);
    var one, both := [a], [a, b];
    assert one[..|one| - 1] == [] && both[..|both| - 1] == one;
    assert SumOfCounts(one) == zero.Plus(a) && SumOfCosts(one, rate) == Cost(a, rate);
    assert SumOfCounts(both) == a.Plus(b) && SumOfCosts(both, rate) == Cost(a, rate) + Cost(b, rate);
  }

  // ---------------------------------------------------------------- 64-bit arithmetic

  const TWO_63 := 0x8000_0000_0000_0000
  const TWO_64 := 0x1_0000_0000_0000_0000

  /** The int64 value an overflowing operation leaves. */
  function Int64(x: int): (r: int)
    ensures -TWO_63 <= r < TWO_63
    ensures -TWO_63 <= x < TWO_63 ==> r == x
  {
    (x + TWO_63) % TWO_64 - TWO_63
  }

  /** Go's integer division, which truncates toward zero. */
  function Quotient(x: int, d: int): int
    requires d > 0
  {
    if x >= 0 then x / d else -(-x / d)
  }

  function ChargeInt64(counts: TokenCounts, rate: BilledRate): int {
    var b := counts.Billable();
    Int64(Int64(Int64(Int64(b.input * rate.input) + Int64(b.output * rate.output))
                + Int64(b.cacheRead * rate.cacheRead)) + Int64(b.cacheWrite * rate.cacheWrite))
  }

  /** `Cost` as the code computes it, every operation in 64 bits. */
  function CostInt64(counts: TokenCounts, rate: BilledRate): int {
    RoundedInt64(Int64(AtLeastZero(ChargeInt64(counts, rate)) * AtLeastZero(rate.ratio)))
  }

  function RoundedInt64(scaled: int): int {
    Quotient(Int64(scaled + DENOM / 2), DENOM)
  }

  lemma Int64OfSum(x: int, y: int)
    ensures Int64(Int64(x) + Int64(y)) == Int64(x + y)
  {
    SameInt64(Int64(x) + Int64(y), x + y, (Int64(x) - x) / TWO_64 + (Int64(y) - y) / TWO_64);
  }

  lemma SameInt64(x: int, y: int, k: int)
    requires x == y + k * TWO_64
    ensures Int64(x) == Int64(y)
  {
    assert (y + TWO_63 + k * TWO_64) % TWO_64 == (y + TWO_63) % TWO_64;
  }

  lemma ChargeWraps(counts: TokenCounts, rate: BilledRate)
    ensures ChargeInt64(counts, rate) == Int64(Charge(counts, rate))
  {
    var b := counts.Billable();
    var p, q := b.input * rate.input, b.output * rate.output;
    var r, s := b.cacheRead * rate.cacheRead, b.cacheWrite * rate.cacheWrite;
    hide Int64;
    Int64OfSum(p, q);
    Int64OfSum(p + q, r);
    Int64OfSum(p + q + r, s);
  }

  /**
   With non-negative counts and rates, the 64-bit computation gives the exact cost if and only if
   the scaled charge and the rounding half fit in an int64.
   */
  lemma Int64IsExactIff(counts: TokenCounts, rate: BilledRate)
    requires counts.NonNegative() && rate.NonNegative()
    ensures CostInt64(counts, rate) == Cost(counts, rate) <==> Scaled(counts, rate) + DENOM / 2 < TWO_63
  {
    var ratio, charge := AtLeastZero(rate.ratio), Charge(counts, rate);
    ChargeWraps(counts, rate);
    ChargeIsNonNegative(counts, rate);
    if ratio == 0 {
      assert charge * ratio == 0 && AtLeastZero(Int64(charge)) * ratio == 0;
    } else {
      hide Charge, ChargeInt64;
      ProductsGrow(charge, charge, 1, ratio);
      WideIsInexact(charge, ratio);
    }
  }

  lemma ChargeIsNonNegative(counts: TokenCounts, rate: BilledRate)
    requires counts.NonNegative() && rate.NonNegative()
    ensures Charge(counts, rate) >= 0
  {
    var b := counts.Billable();
    Distribute(b.input, 0, rate.input);
    Distribute(b.output, 0, rate.output);
    Distribute(b.cacheRead, 0, rate.cacheRead);
    Distribute(b.cacheWrite, 0, rate.cacheWrite);
  }

  lemma WideIsInexact(charge: nat, ratio: nat)
    requires 1 <= ratio && charge <= charge * ratio
    ensures RoundedInt64(Int64(AtLeastZero(Int64(charge)) * ratio)) == Rounded(charge * ratio)
       <==> charge * ratio + DENOM / 2 < TWO_63
  {
    if charge * ratio < TWO_63 {
      assert Int64(charge) == charge && Int64(charge * ratio) == charge * ratio;
      RoundingInt64(charge * ratio);
    } else {
      SmallQuotient(Int64(AtLeastZero(Int64(charge)) * ratio));
      assert Rounded(charge * ratio) > 922_337_203;
    }
  }

  /** In 64 bits the rounding step never gives more than this. */
  lemma SmallQuotient(scaled: int)
    ensures RoundedInt64(scaled) <= 922_337_203
  {
    var x := Int64(scaled + DENOM / 2);
    hide Int64;
    assert x >= 0 ==> x / DENOM <= 922_337_203;
  }

  lemma RoundingInt64(scaled: nat)
    requires scaled < TWO_63
    ensures RoundedInt64(scaled) == Rounded(scaled) <==> scaled + DENOM / 2 < TWO_63
  {
    var x := scaled + DENOM / 2;
    if x >= TWO_63 {
      SameInt64(x - TWO_64, x, -1);
      assert Int64(x) == x - TWO_64;
      hide Int64;
      assert RoundedInt64(scaled) <= 0 < Rounded(scaled);
    }
  }

  // ---------------------------------------------------------------- unpriced models

  /** The largest total the list price bills exactly. */
  const UNPRICED_LIMIT := 922_337_203

  /** A model with no price, at list ratio, costs one unit a token, exactly as far as the limit. */
  lemma UnpricedCostsItsTotalIff(model: Bytes, total: nat)
    ensures var rate := RateFor(FlatPrice(model, RATE_SCALE), RATIO_SCALE);
            CostInt64(TokenCounts(0, 0, 0, 0, total), rate) == total <==> total <= UNPRICED_LIMIT
  {
    var counts, rate := TokenCounts(0, 0, 0, 0, total), RateFor(FlatPrice(model, RATE_SCALE), RATIO_SCALE);
    assert Scaled(counts, rate) == total * DENOM;
    Int64IsExactIff(counts, rate);
    if total > UNPRICED_LIMIT {
      SmallQuotient(Int64(AtLeastZero(ChargeInt64(counts, rate)) * AtLeastZero(rate.ratio)));
    } else {
      CostIsNearest(counts, rate);
      assert IsNearest(total, Scaled(counts, rate));
    }
  }
}
