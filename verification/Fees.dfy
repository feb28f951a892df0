/** Platform-fee arithmetic of the escrow contract. */
module Fees {
  import opened Options

  const MAX_FEE_BPS := 1000
  const BPS := 10000

  /** The graduated schedule: a rate per staking tier and a volume discount. */
  datatype FeeSchedule = FeeSchedule(tier0Bps: nat, tier1Bps: nat, tier2Bps: nat, tier3Bps: nat,
                                     volumeThreshold: int, volumeDiscountBps: nat)

  /** What the contract stores about fees. */
  datatype FeeConfig = FeeConfig(feeBps: nat, schedule: Option<FeeSchedule>, dynamic: bool)

  /** What a fee computation reads from other contracts: the mentor's tier and the MNT price. */
  datatype Quote = Quote(tier: nat, price: int)

  predicate ValidSchedule(s: FeeSchedule) {
    && s.tier0Bps <= MAX_FEE_BPS && s.tier1Bps <= MAX_FEE_BPS
    && s.tier2Bps <= MAX_FEE_BPS && s.tier3Bps <= MAX_FEE_BPS
    && s.volumeDiscountBps <= MAX_FEE_BPS
    && s.volumeThreshold >= 0
  }

  predicate ValidConfig(c: FeeConfig) {
    c.feeBps <= MAX_FEE_BPS && (c.schedule.Some? ==> ValidSchedule(c.schedule.value))
  }

  function Min(a: int, b: int): int {
    if a < b then a else b
  }

  function SaturatingSub(a: nat, b: nat): nat {
    if a < b then 0 else a - b
  }

  function TierBps(s: FeeSchedule, tier: nat): nat {
    match tier
    case 1 => s.tier1Bps
    case 2 => s.tier2Bps
    case 3 => s.tier3Bps
    case _ => s.tier0Bps
  }

  function PriceMultiplierBps(price: int): nat {
    if price <= 0 then 10000
    else if price < 1000000 then 12500
    else if price < 5000000 then 11000
    else if price < 10000000 then 10000
    else 9000
  }

  /** The rate before the volume discount. */
  function BaseBps(s: FeeSchedule, dynamic: bool, q: Quote): nat {
    var tierBase := TierBps(s, q.tier);
    if dynamic then Min(tierBase * PriceMultiplierBps(q.price) / BPS, MAX_FEE_BPS) else tierBase
  }

  function EffectiveBps(s: FeeSchedule, dynamic: bool, q: Quote, amount: int): nat {
    var base := BaseBps(s, dynamic, q);
    var discounted := if amount > s.volumeThreshold then SaturatingSub(base, s.volumeDiscountBps) else base;
    Min(discounted, MAX_FEE_BPS)
  }

  function FlatFee(bps: nat, amount: int): int {
    amount * bps / BPS
  }

  function GraduatedFee(s: FeeSchedule, dynamic: bool, q: Quote, amount: int): int {
    FlatFee(EffectiveBps(s, dynamic, q, amount), amount)
  }

  /** The fee every ordinary release path charges. */
  function UnifiedFee(c: FeeConfig, q: Quote, amount: int): int {
    match c.schedule
    case Some(s) => GraduatedFee(s, c.dynamic, q, amount)
    case None => FlatFee(c.feeBps, amount)
  }

  // ---------------------------------------------------------------- arithmetic

  lemma FlatFeeBounds(bps: nat, amount: nat)
    requires bps <= MAX_FEE_BPS
    ensures 0 <= FlatFee(bps, amount) <= amount / 10 <= amount
  {
    RateTimes(bps, 0, amount);
  }

  lemma FloorStep(x: nat, y: nat, d: nat)
    requires y <= 1000 * d
    ensures x / BPS <= (x + y) / BPS <= x / BPS + d
  {
  }

  lemma RateTimes(bps: nat, low: nat, d: nat)
    requires bps <= MAX_FEE_BPS
    ensures (low + d) * bps == low * bps + d * bps && 0 <= d * bps <= 1000 * d && low * bps >= 0
  {
  }

  /** One more unit of gross never costs more than one unit of fee. */
  lemma FlatNetMonotone(bps: nat, low: nat, high: nat)
    requires bps <= MAX_FEE_BPS && low <= high
    ensures low - FlatFee(bps, low) <= high - FlatFee(bps, high)
    ensures FlatFee(bps, low) <= FlatFee(bps, high)
  {
    RateTimes(bps, low, high - low);
    FloorStep(low * bps, (high - low) * bps, high - low);
  }

  lemma RateOrder(lowBps: nat, highBps: nat, amount: nat)
    requires lowBps <= highBps
    ensures 0 <= amount * lowBps <= amount * highBps
  {
  }

  lemma FlatFeeMonotoneInRate(lowBps: nat, highBps: nat, amount: nat)
    requires lowBps <= highBps <= MAX_FEE_BPS
    ensures FlatFee(lowBps, amount) <= FlatFee(highBps, amount)
  {
    RateOrder(lowBps, highBps, amount);
  }

  // ---------------------------------------------------------------- main results

  /** No configuration, tier or price can push a fee above a tenth of the amount. */
  lemma FeeWithinCap(c: FeeConfig, q: Quote, amount: nat)
    requires ValidConfig(c)
    ensures 0 <= UnifiedFee(c, q, amount) <= amount / 10
  {
    match c.schedule
    case Some(s) => FlatFeeBounds(EffectiveBps(s, c.dynamic, q, amount), amount);
    case None => FlatFeeBounds(c.feeBps, amount);
  }

  /** The mentor's net amount never falls as the gross grows, not even across the discount threshold. */
  lemma NetMonotone(c: FeeConfig, q: Quote, low: nat, high: nat)
    requires ValidConfig(c) && low <= high
    ensures low - UnifiedFee(c, q, low) <= high - UnifiedFee(c, q, high)
  {
    match c.schedule
    case None => FlatNetMonotone(c.feeBps, low, high);
    case Some(s) =>
      var atLow := EffectiveBps(s, c.dynamic, q, low);
      var atHigh := EffectiveBps(s, c.dynamic, q, high);
      FlatNetMonotone(atLow, low, high);
      FlatFeeMonotoneInRate(atHigh, atLow, high);
  }

  lemma ScaledRateOrder(tierBase: nat, low: nat, high: nat)
    requires low <= high
    ensures tierBase * low / BPS <= tierBase * high / BPS
  {
    RateOrder(low, high, tierBase);
  }

  /** A dearer token never raises a fee, and without dynamic pricing the price does not matter at all. */
  lemma FeeFallsWithPrice(c: FeeConfig, tier: nat, cheap: int, dear: int, amount: nat)
    requires ValidConfig(c) && 0 < cheap <= dear
    ensures UnifiedFee(c, Quote(tier, dear), amount) <= UnifiedFee(c, Quote(tier, cheap), amount)
    ensures c.schedule.None? || !c.dynamic ==> UnifiedFee(c, Quote(tier, dear), amount) == UnifiedFee(c, Quote(tier, cheap), amount)
  {
    match c.schedule
    case None =>
    case Some(s) =>
      if c.dynamic {
        ScaledRateOrder(TierBps(s, tier), PriceMultiplierBps(dear), PriceMultiplierBps(cheap));
        FlatFeeMonotoneInRate(EffectiveBps(s, c.dynamic, Quote(tier, dear), amount), EffectiveBps(s, c.dynamic, Quote(tier, cheap), amount), amount);
      }
  }

  ghost predicate FeeMonotone(s: FeeSchedule, dynamic: bool, q: Quote) {
    forall low: nat, high: nat :: low <= high ==> GraduatedFee(s, dynamic, q, low) <= GraduatedFee(s, dynamic, q, high)
  }

  /** It is enough that the fee does not drop in the one step past the threshold. */
  lemma OneStepDecides(s: FeeSchedule, dynamic: bool, q: Quote)
    requires ValidSchedule(s)
    ensures FeeMonotone(s, dynamic, q)
      <==> GraduatedFee(s, dynamic, q, s.volumeThreshold) <= GraduatedFee(s, dynamic, q, s.volumeThreshold + 1)
  {
    var t := s.volumeThreshold;
    if GraduatedFee(s, dynamic, q, t) <= GraduatedFee(s, dynamic, q, t + 1) {
      forall low: nat, high: nat | low <= high
        ensures GraduatedFee(s, dynamic, q, low) <= GraduatedFee(s, dynamic, q, high)
      {
        var below := EffectiveBps(s, dynamic, q, t);
        var above := EffectiveBps(s, dynamic, q, t + 1);
        if high <= t {
          FlatNetMonotone(below, low, high);
        } else if low > t {
          FlatNetMonotone(above, low, high);
        } else {
          FlatNetMonotone(below, low, t);
          FlatNetMonotone(above, t + 1, high);
        }
      }
    }
  }

  lemma FloorsOrdered(x: nat, y: nat)
    ensures x / BPS <= y / BPS <==> x <= y + x % BPS
  {
  }

  lemma DiscountedStep(t: nat, base: nat, discount: nat)
    requires discount <= base
    ensures FlatFee(base, t) <= FlatFee(base - discount, t + 1) <==> (t + 1) * discount <= base + t * base % BPS
  {
    assert (t + 1) * (base - discount) == t * base + base - (t + 1) * discount;
    FloorsOrdered(t * base, (t + 1) * (base - discount));
  }

  /**
   The fee itself is monotone exactly when the discount on the first amount past the threshold is outweighed by that
   unit's rate and the fraction rounded away before; a discount beyond the rate needs a threshold that is still free.
   */
  lemma FeeMonotoneIff(s: FeeSchedule, dynamic: bool, q: Quote)
    requires ValidSchedule(s)
    ensures var t, base, discount := s.volumeThreshold, BaseBps(s, dynamic, q), s.volumeDiscountBps;
      FeeMonotone(s, dynamic, q) <==> if discount <= base then (t + 1) * discount <= base + t * base % BPS else t * base < BPS
  {
    var t, base, discount := s.volumeThreshold, BaseBps(s, dynamic, q), s.volumeDiscountBps;
    OneStepDecides(s, dynamic, q);
    assert EffectiveBps(s, dynamic, q, t) == base;
    if discount <= base {
      assert EffectiveBps(s, dynamic, q, t + 1) == base - discount;
      DiscountedStep(t, base, discount);
    } else {
      assert EffectiveBps(s, dynamic, q, t + 1) == 0;
      RateOrder(0, base, t);
    }
  }

  /** A drop: at 5% with a 1% discount above 1000, 1001 pays less than 1000 does. */
  lemma FeeDropsAtThreshold()
    ensures var s := FeeSchedule(500, 400, 300, 200, 1000, 100);
      ValidSchedule(s) && GraduatedFee(s, false, Quote(0, 0), 1000) == 50
        && GraduatedFee(s, false, Quote(0, 0), 1001) == 40 && !FeeMonotone(s, false, Quote(0, 0))
  {
    var s := FeeSchedule(500, 400, 300, 200, 1000, 100);
    var q := Quote(0, 0);
    assert GraduatedFee(s, false, q, 1000) == 50 && GraduatedFee(s, false, q, 1001) == 40;
  }

  /** Fees on parts against the fee on the whole: the whole costs at most one unit per extra part more. */
  lemma FlatFeeSuperadditive(bps: nat, a: nat, b: nat)
    requires bps <= MAX_FEE_BPS
    ensures 0 <= FlatFee(bps, a + b) - FlatFee(bps, a) - FlatFee(bps, b) <= 1
  {
    RateTimes(bps, a, b);
    FloorSum(a * bps, b * bps);
  }

  lemma FloorSum(x: nat, y: nat)
    ensures 0 <= (x + y) / BPS - x / BPS - y / BPS <= 1
  {
  }
}
