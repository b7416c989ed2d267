/** Job and workload prices in integer micro-USD (`coordinator/internal/pricing/pricing.go`).
    Floating-point factors are read as the exact decimals the source writes. */
module Pricing {

  datatype ModelClass = Micro | Small | Medium | Large | XL | ConfidentialGpu | Unlisted

  datatype Tier = Community | DeviceAttested | Confidential

  datatype Rate = Rate(inPerM: int, outPerM: int)

  datatype Quote = Quote(grossMicros: int, providerMicros: int)

  datatype WorkloadCost = WorkloadCost(compute: int, coordination: int, failure: int,
                                       payment: int, margin: int, total: int)

  const MIN_WORKLOAD_MICROS: int := 10_000
  const MAX_TOKENS: int := 0x100_0000_0000 // 2^40
  const MILLION: real := 1_000_000.0

  // ---------------------------------------------------------------- rounding

  /** Conversion of a float to an integer: toward zero. */
  function Trunc(x: real): int {
    if x >= 0.0 then x.Floor else -((-x).Floor)
  }

  /** `math.Round`: to the nearest integer, halves away from zero. */
  function Round(x: real): int {
    if x >= 0.0 then (x + 0.5).Floor else -((0.5 - x).Floor)
  }

  lemma RoundingBounds(x: real)
    ensures x >= 0.0 ==> 0 <= Trunc(x) && x - 1.0 < Trunc(x) as real <= x
    ensures x >= 0.0 ==> 0 <= Round(x) && x - 0.5 < Round(x) as real <= x + 0.5
  {
  }

  lemma RoundingIsMonotone(x: real, y: real)
    requires x <= y
    ensures Trunc(x) <= Trunc(y) && Round(x) <= Round(y)
  {
  }

  // ---------------------------------------------------------------- one job

  function RateCard(c: ModelClass): Rate {
    match c
    case Micro => Rate(20_000, 80_000)
    case Small => Rate(50_000, 200_000)
    case Medium => Rate(150_000, 600_000)
    case Large => Rate(400_000, 1_600_000)
    case XL => Rate(900_000, 3_600_000)
    case ConfidentialGpu => Rate(900_000, 3_600_000)
    case Unlisted => Rate(50_000, 200_000)
  }

  function TierMultiplier(t: Tier): real {
    match t
    case Community => 1.0
    case DeviceAttested => 1.4
    case Confidential => 3.0
  }

  function RevShare(t: Tier): real {
    if t.Confidential? then 0.60 else 0.70
  }

  function Positive(x: real): real {
    if x <= 0.0 then 1.0 else x
  }

  function Scale(perM: int, m: real): int {
    Trunc(perM as real * m)
  }

  function ScaledPart(perM: int, priceMult: real): int {
    Scale(perM, Positive(priceMult))
  }

  /** The rate card scaled by the price multiplier. */
  function Scaled(c: ModelClass, priceMult: real): Rate {
    Rate(ScaledPart(RateCard(c).inPerM, priceMult), ScaledPart(RateCard(c).outPerM, priceMult))
  }

  /** The exact base price of a job, before rounding. */
  function Exact(r: Rate, promptTokens: int, completionTokens: int): real {
    promptTokens as real * r.inPerM as real / MILLION + completionTokens as real * r.outPerM as real / MILLION
  }

  function Base(c: ModelClass, promptTokens: int, completionTokens: int, priceMult: real): int {
    Round(Exact(Scaled(c, priceMult), promptTokens, completionTokens))
  }

  function Gross(base: int, t: Tier): int {
    Trunc(base as real * TierMultiplier(t))
  }

  function Share(gross: int, t: Tier, qualityMult: real): int {
    Round(gross as real * RevShare(t) * Positive(qualityMult))
  }

  function QuoteJob(c: ModelClass, t: Tier, promptTokens: int, completionTokens: int,
                    priceMult: real, qualityMult: real): Quote {
    var gross := Gross(Base(c, promptTokens, completionTokens, priceMult), t);
    Quote(gross, Share(gross, t, qualityMult))
  }

  lemma ScaledIsNonNegative(c: ModelClass, priceMult: real)
    ensures Scaled(c, priceMult).inPerM >= 0 && Scaled(c, priceMult).outPerM >= 0
  {
    var m, r := Positive(priceMult), RateCard(c);
    assert r.inPerM as real * m >= 0.0 && r.outPerM as real * m >= 0.0;
  }

  lemma ProductNonNegative(x: int, y: int)
    requires x >= 0 && y >= 0
    ensures x as real * y as real >= 0.0
  {
  }

  lemma ExactIsNonNegative(r: Rate, p: int, q: int)
    requires r.inPerM >= 0 && r.outPerM >= 0 && p >= 0 && q >= 0
    ensures Exact(r, p, q) >= 0.0
  {
    ProductNonNegative(p, r.inPerM);
    ProductNonNegative(q, r.outPerM);
  }

  lemma ExactPriceIsNonNegative(c: ModelClass, p: int, q: int, priceMult: real)
    requires p >= 0 && q >= 0
    ensures Exact(Scaled(c, priceMult), p, q) >= 0.0
  {
    ScaledIsNonNegative(c, priceMult);
    ExactIsNonNegative(Scaled(c, priceMult), p, q);
  }

  lemma BaseIsNonNegative(c: ModelClass, p: int, q: int, priceMult: real)
    requires p >= 0 && q >= 0
    ensures Base(c, p, q, priceMult) >= 0
  {
    ExactPriceIsNonNegative(c, p, q, priceMult);
    RoundingBounds(Exact(Scaled(c, priceMult), p, q));
  }

  lemma ScaleDown(x: real, m: real)
    requires x >= 0.0 && 0.0 <= m <= 1.0
    ensures 0.0 <= x * m <= x
  {
    assert x * m + x * (1.0 - m) == x;
    assert x * (1.0 - m) >= 0.0;
  }

  lemma ShareWithin(gross: int, t: Tier, m: real)
    requires gross >= 0 && 0.0 < m <= 1.0
    ensures 0 <= Round(gross as real * RevShare(t) * m) <= gross
  {
    var share := gross as real * RevShare(t);
    ScaleDown(share, m);
    RoundingIsMonotone(share * m, share);
    RoundingBounds(share * m);
    RoundingBounds(share);
    if gross >= 2 {
      assert share + 0.5 <= gross as real;
    } else if gross == 1 {
      assert share < 1.0;
    }
  }

  lemma ShareOfBase(base: int, t: Tier, qualityMult: real)
    requires base >= 0 && qualityMult <= 1.0
    ensures 0 <= Share(Gross(base, t), t, qualityMult) <= Gross(base, t)
  {
    RoundingBounds(base as real * TierMultiplier(t));
    ShareWithin(Gross(base, t), t, Positive(qualityMult));
  }

  /** A provider never accrues more than the job's gross. */
  lemma ShareStaysWithinGross(c: ModelClass, t: Tier, p: int, q: int, priceMult: real, qualityMult: real)
    requires p >= 0 && q >= 0 && qualityMult <= 1.0
    ensures var quote := QuoteJob(c, t, p, q, priceMult, qualityMult); 0 <= quote.providerMicros <= quote.grossMicros
  {
    BaseIsNonNegative(c, p, q, priceMult);
    ShareOfBase(Base(c, p, q, priceMult), t, qualityMult);
  }

  // ---------------------------------------------------------------- a workload

  function ClampInt(v: int): int {
    if v > MAX_TOKENS then MAX_TOKENS else if v < 0 then 0 else v
  }

  function AtLeastOne(redundancy: int): int {
    if redundancy < 1 then 1 else redundancy
  }

  /** What redundancy leaves to be held back for retries. */
  function FailureRate(redundancy: int): real {
    0.08 / AtLeastOne(redundancy) as real
  }

  function Margin(preMargin: int, marginRate: real): int {
    Trunc(preMargin as real * marginRate)
  }

  function Payment(subtotal: int): int {
    Trunc(subtotal as real * 0.03)
  }

  function AtLeastMinimum(total: int): int {
    if total < MIN_WORKLOAD_MICROS then MIN_WORKLOAD_MICROS else total
  }

  /** Margin and card fee on top of what the work costs. */
  function Finish(compute: int, coordination: int, failure: int, margin: int): WorkloadCost {
    var subtotal := compute + coordination + failure + margin;
    WorkloadCost(compute, coordination, failure, Payment(subtotal), margin,
                 AtLeastMinimum(subtotal + Payment(subtotal)))
  }

  /** The price built up from what providers earn. */
  function BuildUp(compute: int, failureRate: real, marginRate: real): WorkloadCost {
    var coordination, failure := compute * 15 / 100, Trunc(compute as real * failureRate);
    Finish(compute, coordination, failure, Margin(compute + coordination + failure, marginRate))
  }

  /** What providers earn for all the tokens, once per redundant run. */
  function Compute(c: ModelClass, t: Tier, promptTokens: int, completionTokens: int,
                   redundancy: int, priceMult: real): int {
    var red := AtLeastOne(redundancy);
    var p, q := ClampInt(promptTokens * red), ClampInt(completionTokens * red);
    var earned := QuoteJob(c, t, p, q, priceMult, 1.0).providerMicros;
    if earned < 0 then 0 else earned
  }

  function QuoteWorkload(c: ModelClass, t: Tier, promptTokens: int, completionTokens: int,
                         redundancy: int, marginRate: real, priceMult: real): WorkloadCost {
    BuildUp(Compute(c, t, promptTokens, completionTokens, redundancy, priceMult),
            FailureRate(redundancy), if marginRate <= 0.0 then 0.30 else marginRate)
  }

  // ---------------------------------------------------------------- accruals against the quote

  /** The tier one item was served at and the tokens it really used. */
  datatype Use = Use(tier: Tier, promptTokens: nat, completionTokens: nat)

  function PromptTotal(uses: seq<Use>): nat {
    if uses == [] then 0 else PromptTotal(uses[1..]) + uses[0].promptTokens
  }

  function CompletionTotal(uses: seq<Use>): nat {
    if uses == [] then 0 else CompletionTotal(uses[1..]) + uses[0].completionTokens
  }

  function Total(f: Use -> int, uses: seq<Use>): int {
    if uses == [] then 0 else Total(f, uses[1..]) + f(uses[0])
  }

  function RealTotal(f: Use -> real, uses: seq<Use>): real {
    if uses == [] then 0.0 else RealTotal(f, uses[1..]) + f(uses[0])
  }

  function Accrual(c: ModelClass, priceMult: real): Use -> int {
    (u: Use) => QuoteJob(c, u.tier, u.promptTokens, u.completionTokens, priceMult, 1.0).providerMicros
  }

  /** What all providers accrue for the successful items of a workload. */
  function Accrued(c: ModelClass, uses: seq<Use>, priceMult: real): int {
    Total(Accrual(c, priceMult), uses)
  }

  /** The order of tiers: what a request for one of them admits is at least as high. */
  function Rank(t: Tier): nat {
    match t
    case Community => 0
    case DeviceAttested => 1
    case Confidential => 2
  }

  /** The provider's fraction of the exact base price. */
  function Cut(t: Tier): real {
    match t
    case Community => 0.70
    case DeviceAttested => 0.98
    case Confidential => 1.80
  }

  /** What a provider would earn without any rounding. */
  function ExactShare(c: ModelClass, t: Tier, p: int, q: int, priceMult: real): real {
    Cut(t) * Exact(Scaled(c, priceMult), p, q)
  }

  lemma ThreeRoundings(t: Tier, x: real, base: real, gross: real, share: real)
    requires x - 0.5 < base <= x + 0.5
    requires base * TierMultiplier(t) - 1.0 < gross <= base * TierMultiplier(t)
    requires gross * RevShare(t) - 0.5 < share <= gross * RevShare(t) + 0.5
    ensures Cut(t) * x - 2.0 <= share <= Cut(t) * x + 1.5
    ensures Cut(t) == TierMultiplier(t) * RevShare(t)
  {
    match t
    case Community =>
    case DeviceAttested =>
    case Confidential =>
  }

  lemma GrossBounds(base: int, t: Tier)
    requires base >= 0
    ensures 0 <= Gross(base, t)
    ensures base as real * TierMultiplier(t) - 1.0 < Gross(base, t) as real <= base as real * TierMultiplier(t)
  {
    RoundingBounds(base as real * TierMultiplier(t));
  }

  lemma ShareBounds(gross: int, t: Tier)
    requires gross >= 0
    ensures 0 <= Share(gross, t, 1.0)
    ensures gross as real * RevShare(t) - 0.5 < Share(gross, t, 1.0) as real <= gross as real * RevShare(t) + 0.5
  {
    RoundingBounds(gross as real * RevShare(t));
    assert gross as real * RevShare(t) * 1.0 == gross as real * RevShare(t);
  }

  lemma RoundedShare(t: Tier, x: real)
    requires x >= 0.0
    ensures var s := Share(Gross(Round(x), t), t, 1.0); 0 <= s && Cut(t) * x - 2.0 <= s as real <= Cut(t) * x + 1.5
  {
    var base := Round(x);
    RoundingBounds(x);
    GrossBounds(base, t);
    var gross := Gross(base, t);
    ShareBounds(gross, t);
    ThreeRoundings(t, x, base as real, gross as real, Share(gross, t, 1.0) as real);
  }

  /** Three roundings move a job's accrual at most 1.5 micro-dollars above its exact share. */
  lemma AccrualAtMost(c: ModelClass, t: Tier, p: int, q: int, priceMult: real)
    requires p >= 0 && q >= 0
    ensures QuoteJob(c, t, p, q, priceMult, 1.0).providerMicros as real <= ExactShare(c, t, p, q, priceMult) + 1.5
  {
    ExactPriceIsNonNegative(c, p, q, priceMult);
    RoundedShare(t, Exact(Scaled(c, priceMult), p, q));
  }

  /** And at most 2 micro-dollars below it. */
  lemma AccrualAtLeast(c: ModelClass, t: Tier, p: int, q: int, priceMult: real)
    requires p >= 0 && q >= 0
    ensures QuoteJob(c, t, p, q, priceMult, 1.0).providerMicros as real >= ExactShare(c, t, p, q, priceMult) - 2.0
  {
    ExactPriceIsNonNegative(c, p, q, priceMult);
    RoundedShare(t, Exact(Scaled(c, priceMult), p, q));
  }

  lemma ExactAdds(r: Rate, p: int, q: int, p': int, q': int)
    ensures Exact(r, p + p', q + q') == Exact(r, p, q) + Exact(r, p', q')
  {
    assert (p + p') as real * r.inPerM as real == p as real * r.inPerM as real + p' as real * r.inPerM as real;
    assert (q + q') as real * r.outPerM as real == q as real * r.outPerM as real + q' as real * r.outPerM as real;
  }

  /** What an item would earn without any rounding at tier `t`. */
  function ShareAt(c: ModelClass, t: Tier, priceMult: real): Use -> real {
    (u: Use) => ExactShare(c, t, u.promptTokens, u.completionTokens, priceMult)
  }

  lemma {:induction false} TotalBound(f: Use -> int, g: Use -> real, uses: seq<Use>)
    requires forall u | u in uses :: f(u) as real <= g(u) + 1.5
    ensures Total(f, uses) as real <= RealTotal(g, uses) + 1.5 * |uses| as real
  {
    if uses == [] {
    } else {
      TotalBound(f, g, uses[1..]);
      assert f(uses[0]) as real <= g(uses[0]) + 1.5;
    }
  }

  lemma {:induction false} SharesAddUp(c: ModelClass, t: Tier, uses: seq<Use>, priceMult: real)
    ensures RealTotal(ShareAt(c, t, priceMult), uses)
         == ExactShare(c, t, PromptTotal(uses), CompletionTotal(uses), priceMult)
  {
    if uses == [] {
      assert Exact(Scaled(c, priceMult), 0, 0) == 0.0;
    } else {
      SharesAddUp(c, t, uses[1..], priceMult);
      ExactShareAdds(c, t, PromptTotal(uses[1..]), CompletionTotal(uses[1..]),
                     uses[0].promptTokens, uses[0].completionTokens, priceMult);
    }
  }

  /** A tier and a price multiplier: what a workload is quoted at, or an item served at. */
  datatype Terms = Terms(tier: Tier, priceMult: real)

  /** Both kinds of token earn no more at cut and rate `cut`, `r` than at `cut'`, `r'`. */
  predicate EarnsNoMore(cut: real, r: Rate, cut': real, r': Rate) {
    cut * r.inPerM as real <= cut' * r'.inPerM as real && cut * r.outPerM as real <= cut' * r'.outPerM as real
  }

  /** A provider's exact income per million tokens at `served` is no higher than at `quoted`. */
  predicate NoDearer(c: ModelClass, served: Terms, quoted: Terms) {
    EarnsNoMore(Cut(served.tier), Scaled(c, served.priceMult), Cut(quoted.tier), Scaled(c, quoted.priceMult))
  }

  lemma PartNoDearer(tokens: int, cut: real, rate: real, cut': real, rate': real)
    requires tokens >= 0 && cut * rate <= cut' * rate'
    ensures cut * (tokens as real * rate / MILLION) <= cut' * (tokens as real * rate' / MILLION)
  {
    var n := tokens as real / MILLION;
    assert n * (cut * rate) <= n * (cut' * rate');
    assert cut * (tokens as real * rate / MILLION) == n * (cut * rate);
    assert cut' * (tokens as real * rate' / MILLION) == n * (cut' * rate');
  }

  lemma InParts(cut: real, r: Rate, p: int, q: int)
    ensures cut * Exact(r, p, q)
         == cut * (p as real * r.inPerM as real / MILLION) + cut * (q as real * r.outPerM as real / MILLION)
  {
    Distributes(cut, p as real * r.inPerM as real / MILLION, q as real * r.outPerM as real / MILLION);
  }

  lemma RatesNoDearer(cut: real, r: Rate, cut': real, r': Rate, p: int, q: int)
    requires p >= 0 && q >= 0 && EarnsNoMore(cut, r, cut', r')
    ensures cut * Exact(r, p, q) <= cut' * Exact(r', p, q)
  {
    PartNoDearer(p, cut, r.inPerM as real, cut', r'.inPerM as real);
    PartNoDearer(q, cut, r.outPerM as real, cut', r'.outPerM as real);
    InParts(cut, r, p, q);
    InParts(cut', r', p, q);
  }

  lemma ShareNoDearer(c: ModelClass, served: Terms, quoted: Terms, p: int, q: int)
    requires p >= 0 && q >= 0 && NoDearer(c, served, quoted)
    ensures ExactShare(c, served.tier, p, q, served.priceMult) <= ExactShare(c, quoted.tier, p, q, quoted.priceMult)
  {
    RatesNoDearer(Cut(served.tier), Scaled(c, served.priceMult), Cut(quoted.tier), Scaled(c, quoted.priceMult), p, q);
  }

  lemma AccrualWithin(c: ModelClass, quoted: Terms, u: Use, priceMult: real)
    requires NoDearer(c, Terms(u.tier, priceMult), quoted)
    ensures Accrual(c, priceMult)(u) as real <= ShareAt(c, quoted.tier, quoted.priceMult)(u) + 1.5
  {
    AccrualAtMost(c, u.tier, u.promptTokens, u.completionTokens, priceMult);
    ShareNoDearer(c, Terms(u.tier, priceMult), quoted, u.promptTokens, u.completionTokens);
  }

  /** No item was served at terms dearer than the quoted ones. */
  predicate Covers(c: ModelClass, quoted: Terms, uses: seq<Use>, priceMult: real) {
    forall u | u in uses :: NoDearer(c, Terms(u.tier, priceMult), quoted)
  }

  lemma AccruedBound(c: ModelClass, quoted: Terms, uses: seq<Use>, priceMult: real)
    requires Covers(c, quoted, uses, priceMult)
    ensures Accrued(c, uses, priceMult) as real
         <= RealTotal(ShareAt(c, quoted.tier, quoted.priceMult), uses) + 1.5 * |uses| as real
  {
    var share := ShareAt(c, quoted.tier, quoted.priceMult);
    forall u | u in uses ensures Accrual(c, priceMult)(u) as real <= share(u) + 1.5 {
      AccrualWithin(c, quoted, u, priceMult);
    }
    TotalBound(Accrual(c, priceMult), share, uses);
  }

  lemma ExactShareAdds(c: ModelClass, t: Tier, p: int, q: int, p': int, q': int, priceMult: real)
    ensures ExactShare(c, t, p + p', q + q', priceMult)
         == ExactShare(c, t, p, q, priceMult) + ExactShare(c, t, p', q', priceMult)
  {
    var r := Scaled(c, priceMult);
    ExactAdds(r, p, q, p', q');
    Distributes(Cut(t), Exact(r, p, q), Exact(r, p', q'));
  }

  lemma Distributes(k: real, x: real, y: real)
    ensures k * (x + y) == k * x + k * y
  {
  }

  lemma ExactIsMonotone(r: Rate, p: int, q: int, p': int, q': int)
    requires r.inPerM >= 0 && r.outPerM >= 0 && p <= p' && q <= q'
    ensures Exact(r, p, q) <= Exact(r, p', q')
  {
    ExactAdds(r, p, q, p' - p, q' - q);
    ExactIsNonNegative(r, p' - p, q' - q);
  }

  lemma TimesAtLeastOne(v: int, red: int)
    requires v >= 0 && red >= 1
    ensures v <= v * red
  {
    assert v * red == v + v * (red - 1);
  }

  lemma JobFloor(c: ModelClass, t: Tier, p: int, q: int, p': int, q': int, priceMult: real)
    requires 0 <= p <= p' && 0 <= q <= q'
    ensures var earned := QuoteJob(c, t, p', q', priceMult, 1.0).providerMicros;
      0 <= earned && ExactShare(c, t, p, q, priceMult) - 2.0 <= earned as real
  {
    var x, x' := Exact(Scaled(c, priceMult), p, q), Exact(Scaled(c, priceMult), p', q');
    ScaledIsNonNegative(c, priceMult);
    ExactIsMonotone(Scaled(c, priceMult), p, q, p', q');
    AccrualAtLeast(c, t, p', q', priceMult);
    ShareStaysWithinGross(c, t, p', q', priceMult, 1.0);
    CutMonotone(t, x, x');
  }

  lemma JobCoversShares(c: ModelClass, t: Tier, uses: seq<Use>, p: int, q: int, priceMult: real)
    requires PromptTotal(uses) <= p && CompletionTotal(uses) <= q
    ensures var earned := QuoteJob(c, t, p, q, priceMult, 1.0).providerMicros;
      0 <= earned && RealTotal(ShareAt(c, t, priceMult), uses) - 2.0 <= earned as real
  {
    SharesAddUp(c, t, uses, priceMult);
    JobFloor(c, t, PromptTotal(uses), CompletionTotal(uses), p, q, priceMult);
  }

  lemma CutMonotone(t: Tier, x: real, y: real)
    requires x <= y
    ensures Cut(t) * x <= Cut(t) * y
  {
  }

  /** The items of a workload against one job of all its tokens at the quoted terms. */
  lemma AccruedWithinOneJob(c: ModelClass, quoted: Terms, uses: seq<Use>, p: int, q: int, priceMult: real)
    requires Covers(c, quoted, uses, priceMult) && PromptTotal(uses) <= p && CompletionTotal(uses) <= q
    ensures var earned := QuoteJob(c, quoted.tier, p, q, quoted.priceMult, 1.0).providerMicros;
      0 <= earned && 2 * Accrued(c, uses, priceMult) <= 2 * earned + 3 * |uses| + 4
  {
    AccruedBound(c, quoted, uses, priceMult);
    JobCoversShares(c, quoted.tier, uses, p, q, quoted.priceMult);
  }

  lemma ComputeIsOneJob(c: ModelClass, t: Tier, p: int, q: int, redundancy: int, marginRate: real, priceMult: real)
    requires 0 <= p * AtLeastOne(redundancy) <= MAX_TOKENS && 0 <= q * AtLeastOne(redundancy) <= MAX_TOKENS
    ensures QuoteWorkload(c, t, p, q, redundancy, marginRate, priceMult).compute
         >= QuoteJob(c, t, p * AtLeastOne(redundancy), q * AtLeastOne(redundancy), priceMult, 1.0).providerMicros
  {
  }

  /** Actual tokens stay within the estimate, and the estimate below the clamp. */
  predicate Estimated(uses: seq<Use>, promptTokens: int, completionTokens: int, redundancy: int) {
    && PromptTotal(uses) <= promptTokens && CompletionTotal(uses) <= completionTokens
    && promptTokens * AtLeastOne(redundancy) <= MAX_TOKENS && completionTokens * AtLeastOne(redundancy) <= MAX_TOKENS
  }

  /** What a customer asks a price for. */
  datatype Request = Request(promptTokens: int, completionTokens: int, redundancy: int, marginRate: real)

  /** All accruals S of the workload are within its quote: 2S <= 2*compute + 3n + 4. */
  predicate WithinQuote(c: ModelClass, quoted: Terms, r: Request, uses: seq<Use>, priceMult: real) {
    var quote := QuoteWorkload(c, quoted.tier, r.promptTokens, r.completionTokens,
                               r.redundancy, r.marginRate, quoted.priceMult);
    2 * Accrued(c, uses, priceMult) <= 2 * quote.compute + 3 * |uses| + 4
  }

  /** All providers together accrue at most the quoted compute cost, up to three half
      micro-dollars an item and two more, whatever the redundancy, when no item was served at
      terms dearer than the quoted ones. */
  lemma AccrualsStayWithinQuote(c: ModelClass, quoted: Terms, r: Request, uses: seq<Use>, priceMult: real)
    requires Covers(c, quoted, uses, priceMult) && Estimated(uses, r.promptTokens, r.completionTokens, r.redundancy)
    ensures WithinQuote(c, quoted, r, uses, priceMult)
  {
    var red := AtLeastOne(r.redundancy);
    var p, q := r.promptTokens * red, r.completionTokens * red;
    TimesAtLeastOne(r.promptTokens, red);
    TimesAtLeastOne(r.completionTokens, red);
    AccruedWithinOneJob(c, quoted, uses, p, q, priceMult);
    ComputeIsOneJob(c, quoted.tier, r.promptTokens, r.completionTokens, r.redundancy, r.marginRate, quoted.priceMult);
  }

  // ---------------------------------------------------------------- exactly when the bound holds

  const TRILLION: int := 1_000_000_000_000

  function Percent(t: Tier): int {
    match t
    case Community => 70
    case DeviceAttested => 98
    case Confidential => 180
  }

  /** Incomes per million tokens that differ at all differ by a hundredth of a micro-dollar. */
  lemma DearerByAHundredth(served: Tier, rate: int, quoted: Tier, rate': int)
    requires Cut(served) * rate as real > Cut(quoted) * rate' as real
    ensures Cut(served) * rate as real >= Cut(quoted) * rate' as real + 0.01
  {
    var a, b := Percent(served) * rate, Percent(quoted) * rate';
    CutIsPercent(served, rate);
    CutIsPercent(quoted, rate');
    assert a > b;
  }

  lemma CutIsPercent(t: Tier, rate: int)
    ensures 100.0 * (Cut(t) * rate as real) == (Percent(t) * rate) as real
  {
    match t
    case Community =>
    case DeviceAttested =>
    case Confidential =>
  }

  /** A trillion tokens of one kind: enough for the smallest difference to show. */
  function Bulk(completion: bool): (int, int) {
    if completion then (0, TRILLION) else (TRILLION, 0)
  }

  /** The rate of one kind of token. */
  function RateOf(c: ModelClass, priceMult: real, completion: bool): int {
    var r := Scaled(c, priceMult);
    if completion then r.outPerM else r.inPerM
  }

  lemma BulkShare(c: ModelClass, t: Tier, priceMult: real, completion: bool)
    ensures var (p, q) := Bulk(completion);
      ExactShare(c, t, p, q, priceMult) == 1_000_000.0 * (Cut(t) * RateOf(c, priceMult, completion) as real)
  {
    var (p, q) := Bulk(completion);
    var r := Scaled(c, priceMult);
    BulkPrice(r, completion);
    assert Exact(r, p, q) == 1_000_000.0 * (if completion then r.outPerM else r.inPerM) as real;
  }

  lemma BulkPrice(r: Rate, completion: bool)
    ensures var (p, q) := Bulk(completion);
      Exact(r, p, q) == 1_000_000.0 * (if completion then r.outPerM else r.inPerM) as real
  {
  }

  lemma BulkGap(c: ModelClass, served: Terms, quoted: Terms, completion: bool)
    requires Cut(served.tier) * RateOf(c, served.priceMult, completion) as real
           > Cut(quoted.tier) * RateOf(c, quoted.priceMult, completion) as real
    ensures var (p, q) := Bulk(completion);
      ExactShare(c, served.tier, p, q, served.priceMult)
      >= ExactShare(c, quoted.tier, p, q, quoted.priceMult) + 10_000.0
  {
    BulkShare(c, served.tier, served.priceMult, completion);
    BulkShare(c, quoted.tier, quoted.priceMult, completion);
    var rate', rate := RateOf(c, served.priceMult, completion), RateOf(c, quoted.priceMult, completion);
    DearerByAHundredth(served.tier, rate', quoted.tier, rate);
    ThousandfoldGap(Cut(served.tier) * rate' as real, Cut(quoted.tier) * rate as real);
  }

  lemma ThousandfoldGap(x: real, y: real)
    requires x >= y + 0.01
    ensures 1_000_000.0 * x >= 1_000_000.0 * y + 10_000.0
  {
  }

  lemma BulkEarnsMore(c: ModelClass, served: Terms, quoted: Terms, completion: bool)
    requires Cut(served.tier) * RateOf(c, served.priceMult, completion) as real
           > Cut(quoted.tier) * RateOf(c, quoted.priceMult, completion) as real
    ensures var (p, q) := Bulk(completion);
      QuoteJob(c, served.tier, p, q, served.priceMult, 1.0).providerMicros
      > QuoteJob(c, quoted.tier, p, q, quoted.priceMult, 1.0).providerMicros + 9_000
  {
    var (p, q) := Bulk(completion);
    BulkGap(c, served, quoted, completion);
    AccrualAtLeast(c, served.tier, p, q, served.priceMult);
    AccrualAtMost(c, quoted.tier, p, q, quoted.priceMult);
  }

  lemma OneItem(c: ModelClass, u: Use, priceMult: real)
    ensures Accrued(c, [u], priceMult)
         == QuoteJob(c, u.tier, u.promptTokens, u.completionTokens, priceMult, 1.0).providerMicros
    ensures PromptTotal([u]) == u.promptTokens && CompletionTotal([u]) == u.completionTokens
  {
    assert [u][1..] == [];
    assert Total(Accrual(c, priceMult), []) == 0 && PromptTotal([]) == 0 && CompletionTotal([]) == 0;
  }

  lemma BulkQuote(c: ModelClass, quoted: Terms, completion: bool)
    ensures var (p, q) := Bulk(completion);
      QuoteWorkload(c, quoted.tier, p, q, 1, 0.30, quoted.priceMult).compute
      == QuoteJob(c, quoted.tier, p, q, quoted.priceMult, 1.0).providerMicros
  {
    var (p, q) := Bulk(completion);
    ShareStaysWithinGross(c, quoted.tier, p, q, quoted.priceMult, 1.0);
  }

  /** For every class, whenever an item can be served at terms dearer than the quoted ones, one
      item of a trillion tokens of the dearer kind breaks the bound. */
  lemma ServedDearerBreaksBound(c: ModelClass, served: Terms, quoted: Terms)
    requires !NoDearer(c, served, quoted)
    ensures exists completion ::
      var (p, q) := Bulk(completion);
      Estimated([Use(served.tier, p, q)], p, q, 1)
      && !WithinQuote(c, quoted, Request(p, q, 1, 0.30), [Use(served.tier, p, q)], served.priceMult)
  {
    var r', r := Scaled(c, served.priceMult), Scaled(c, quoted.priceMult);
    var completion := Cut(served.tier) * r'.outPerM as real > Cut(quoted.tier) * r.outPerM as real;
    var (p, q) := Bulk(completion);
    assert r'.outPerM == RateOf(c, served.priceMult, true) && r'.inPerM == RateOf(c, served.priceMult, false);
    BulkEarnsMore(c, served, quoted, completion);
    OneItem(c, Use(served.tier, p, q), served.priceMult);
    BulkQuote(c, quoted, completion);
  }

  /** Whatever the workload, its estimate, redundancy and margin: items served at any of `tiers`
      with price multiplier `priceMult` accrue within the quote. */
  ghost predicate AlwaysWithinQuote(c: ModelClass, quoted: Terms, tiers: set<Tier>, priceMult: real) {
    forall uses: seq<Use>, r: Request ::
      (forall u | u in uses :: u.tier in tiers) && Estimated(uses, r.promptTokens, r.completionTokens, r.redundancy)
      ==> WithinQuote(c, quoted, r, uses, priceMult)
  }

  lemma CoveredTermsSuffice(c: ModelClass, quoted: Terms, tiers: set<Tier>, priceMult: real)
    requires forall t | t in tiers :: NoDearer(c, Terms(t, priceMult), quoted)
    ensures AlwaysWithinQuote(c, quoted, tiers, priceMult)
  {
    forall uses: seq<Use>, r: Request
      | (forall u | u in uses :: u.tier in tiers) && Estimated(uses, r.promptTokens, r.completionTokens, r.redundancy)
      ensures WithinQuote(c, quoted, r, uses, priceMult)
    {
      AccrualsStayWithinQuote(c, quoted, r, uses, priceMult);
    }
  }

  lemma DearerTermsBreak(c: ModelClass, quoted: Terms, tiers: set<Tier>, priceMult: real, served: Tier)
    requires served in tiers && !NoDearer(c, Terms(served, priceMult), quoted)
    ensures !AlwaysWithinQuote(c, quoted, tiers, priceMult)
  {
    ServedDearerBreaksBound(c, Terms(served, priceMult), quoted);
    var completion :| var (p, q) := Bulk(completion);
      Estimated([Use(served, p, q)], p, q, 1)
      && !WithinQuote(c, quoted, Request(p, q, 1, 0.30), [Use(served, p, q)], priceMult);
    var (p, q) := Bulk(completion);
    var uses, r := [Use(served, p, q)], Request(p, q, 1, 0.30);
    assert forall u | u in uses :: u.tier in tiers;
    assert Estimated(uses, r.promptTokens, r.completionTokens, r.redundancy);
  }

  /** The bound holds always exactly when no item can be served at terms dearer than the quoted. */
  lemma WithinQuoteIffTermsCovered(c: ModelClass, quoted: Terms, tiers: set<Tier>, priceMult: real)
    ensures AlwaysWithinQuote(c, quoted, tiers, priceMult)
            <==> forall t | t in tiers :: NoDearer(c, Terms(t, priceMult), quoted)
  {
    if served :| served in tiers && !NoDearer(c, Terms(served, priceMult), quoted) {
      DearerTermsBreak(c, quoted, tiers, priceMult, served);
    } else {
      CoveredTermsSuffice(c, quoted, tiers, priceMult);
    }
  }

  lemma CutScales(served: Tier, quoted: Tier, x: real)
    requires x >= 0.0
    ensures Rank(served) <= Rank(quoted) ==> Cut(served) * x <= Cut(quoted) * x
    ensures x > 0.0 && Rank(served) > Rank(quoted) ==> Cut(served) * x > Cut(quoted) * x
  {
  }

  /** At one multiplier the tiers decide, as long as the scaled rate card charges anything. */
  lemma RankDecides(c: ModelClass, served: Tier, quoted: Tier, priceMult: real)
    ensures var r := Scaled(c, priceMult);
      NoDearer(c, Terms(served, priceMult), Terms(quoted, priceMult))
      <==> Rank(served) <= Rank(quoted) || (r.inPerM == 0 && r.outPerM == 0)
  {
    var r := Scaled(c, priceMult);
    ScaledIsNonNegative(c, priceMult);
    CutScales(served, quoted, r.inPerM as real);
    CutScales(served, quoted, r.outPerM as real);
  }

  /** So they do at any two multipliers that count as the same one. */
  lemma RankSufficesAtEqualScale(c: ModelClass, served: Tier, servedMult: real, quoted: Tier, quotedMult: real)
    requires Rank(served) <= Rank(quoted) && Positive(servedMult) == Positive(quotedMult)
    ensures NoDearer(c, Terms(served, servedMult), Terms(quoted, quotedMult))
  {
    assert Scaled(c, servedMult) == Scaled(c, quotedMult) by { ScaledByPositive(c, servedMult, quotedMult); }
    RankDecides(c, served, quoted, quotedMult);
  }

  lemma ScaledByPositive(c: ModelClass, x: real, y: real)
    requires Positive(x) == Positive(y)
    ensures Scaled(c, x) == Scaled(c, y)
  {
  }

  /** Quoted and served at one multiplier: the bound holds always exactly when no item can be
      served above the quoted tier, or the multiplier scales the whole rate card down to nothing. */
  lemma WithinQuoteIffTiersCovered(c: ModelClass, quoted: Tier, tiers: set<Tier>, priceMult: real)
    ensures var r := Scaled(c, priceMult);
      AlwaysWithinQuote(c, Terms(quoted, priceMult), tiers, priceMult)
      <==> (forall t | t in tiers :: Rank(t) <= Rank(quoted)) || (r.inPerM == 0 && r.outPerM == 0)
  {
    WithinQuoteIffTermsCovered(c, Terms(quoted, priceMult), tiers, priceMult);
    forall t | t in tiers
      ensures var r := Scaled(c, priceMult);
        NoDearer(c, Terms(t, priceMult), Terms(quoted, priceMult))
        <==> Rank(t) <= Rank(quoted) || (r.inPerM == 0 && r.outPerM == 0)
    {
      RankDecides(c, t, quoted, priceMult);
    }
  }

  // ---------------------------------------------------------------- more work never costs less

  lemma ScaleMonotone(x: real, y: real, k: real)
    requires x <= y && k >= 0.0
    ensures x * k <= y * k
  {
    assert (y - x) * k >= 0.0;
  }

  lemma TierScaleMonotone(x: real, y: real, t: Tier)
    requires x <= y
    ensures x * TierMultiplier(t) <= y * TierMultiplier(t)
  {
    match t
    case Community =>
    case DeviceAttested =>
    case Confidential =>
  }

  lemma GrossIsMonotone(base: int, base': int, t: Tier)
    requires base <= base'
    ensures Gross(base, t) <= Gross(base', t)
  {
    var x, x' := base as real * TierMultiplier(t), base' as real * TierMultiplier(t);
    assert x <= x' by { TierScaleMonotone(base as real, base' as real, t); }
    RoundingIsMonotone(x, x');
  }

  lemma ShareIsMonotone(gross: int, gross': int, t: Tier)
    requires gross <= gross'
    ensures Share(gross, t, 1.0) <= Share(gross', t, 1.0)
  {
    ScaleMonotone(gross as real, gross' as real, RevShare(t));
    RoundingIsMonotone(gross as real * RevShare(t) * 1.0, gross' as real * RevShare(t) * 1.0);
  }

  lemma JobIsMonotone(c: ModelClass, t: Tier, p: int, q: int, p': int, q': int, priceMult: real)
    requires p <= p' && q <= q'
    ensures QuoteJob(c, t, p, q, priceMult, 1.0).grossMicros <= QuoteJob(c, t, p', q', priceMult, 1.0).grossMicros
    ensures QuoteJob(c, t, p, q, priceMult, 1.0).providerMicros <= QuoteJob(c, t, p', q', priceMult, 1.0).providerMicros
  {
    var r := Scaled(c, priceMult);
    ScaledIsNonNegative(c, priceMult);
    ExactIsMonotone(r, p, q, p', q');
    RoundingIsMonotone(Exact(r, p, q), Exact(r, p', q'));
    var base, base' := Base(c, p, q, priceMult), Base(c, p', q', priceMult);
    GrossIsMonotone(base, base', t);
    ShareIsMonotone(Gross(base, t), Gross(base', t), t);
  }

  /** Every part of `a` costs at most what it costs in `b`. */
  ghost predicate CostsAtMost(a: WorkloadCost, b: WorkloadCost) {
    && a.compute <= b.compute && a.coordination <= b.coordination && a.failure <= b.failure
    && a.margin <= b.margin && a.payment <= b.payment && a.total <= b.total
  }

  lemma PartIsMonotone(x: int, y: int, k: real)
    requires x <= y && k >= 0.0
    ensures Trunc(x as real * k) <= Trunc(y as real * k)
  {
    ScaleMonotone(x as real, y as real, k);
    RoundingIsMonotone(x as real * k, y as real * k);
  }

  lemma FinishIsMonotone(x: int, y: int, c: int, c': int, f: int, f': int, m: int, m': int)
    requires x <= y && c <= c' && f <= f' && m <= m'
    ensures CostsAtMost(Finish(x, c, f, m), Finish(y, c', f', m'))
  {
    PartIsMonotone(x + c + f + m, y + c' + f' + m', 0.03);
  }

  lemma MarginIsMonotone(u: int, v: int, marginRate: real)
    requires u <= v && marginRate >= 0.0
    ensures Margin(u, marginRate) <= Margin(v, marginRate)
  {
    PartIsMonotone(u, v, marginRate);
  }

  lemma FifteenPercentIsMonotone(x: int, y: int)
    requires x <= y
    ensures x * 15 / 100 <= y * 15 / 100
  {
  }

  lemma BuildUpIsMonotone(x: int, y: int, failureRate: real, marginRate: real)
    requires x <= y && failureRate >= 0.0 && marginRate >= 0.0
    ensures CostsAtMost(BuildUp(x, failureRate, marginRate), BuildUp(y, failureRate, marginRate))
  {
    PartIsMonotone(x, y, failureRate);
    FifteenPercentIsMonotone(x, y);
    var c, c' := x * 15 / 100, y * 15 / 100;
    var f, f' := Trunc(x as real * failureRate), Trunc(y as real * failureRate);
    MarginIsMonotone(x + c + f, y + c' + f', marginRate);
    FinishIsMonotone(x, y, c, c', f, f', Margin(x + c + f, marginRate), Margin(y + c' + f', marginRate));
  }

  lemma ComputeIsMonotone(c: ModelClass, t: Tier, p: int, q: int, p': int, q': int, redundancy: int, priceMult: real)
    requires p <= p' && q <= q'
    ensures Compute(c, t, p, q, redundancy, priceMult) <= Compute(c, t, p', q', redundancy, priceMult)
  {
    var red := AtLeastOne(redundancy);
    assert p' * red == p * red + (p' - p) * red && q' * red == q * red + (q' - q) * red;
    JobIsMonotone(c, t, ClampInt(p * red), ClampInt(q * red), ClampInt(p' * red), ClampInt(q' * red), priceMult);
  }

  /** A larger workload never costs less, in any part of its price. */
  lemma MoreWorkNeverCostsLess(c: ModelClass, t: Tier, p: int, q: int, p': int, q': int,
                               redundancy: int, marginRate: real, priceMult: real)
    requires p <= p' && q <= q'
    ensures CostsAtMost(QuoteWorkload(c, t, p, q, redundancy, marginRate, priceMult),
                        QuoteWorkload(c, t, p', q', redundancy, marginRate, priceMult))
  {
    ComputeIsMonotone(c, t, p, q, p', q', redundancy, priceMult);
    BuildUpIsMonotone(Compute(c, t, p, q, redundancy, priceMult), Compute(c, t, p', q', redundancy, priceMult),
                      FailureRate(redundancy), if marginRate <= 0.0 then 0.30 else marginRate);
  }

  // ---------------------------------------------------------------- what a job costs

  lemma GrossOfRate(r: Rate, p: int, q: int)
    requires p >= 0 && q >= 0 && r.inPerM >= 0 && r.outPerM >= 0
    ensures -500_000 <= 1_000_000 * Gross(Round(Exact(r, p, q)), Community) - (p * r.inPerM + q * r.outPerM) <= 500_000
  {
    ExactIsNonNegative(r, p, q);
    ExactInMicros(r, p, q);
    NearestInMicros(Exact(r, p, q), p * r.inPerM + q * r.outPerM);
  }

  lemma ScaledIsFloored(c: ModelClass, priceMult: real)
    requires priceMult > 0.0
    ensures var card := RateCard(c);
      Scaled(c, priceMult) == Rate((card.inPerM as real * priceMult).Floor, (card.outPerM as real * priceMult).Floor)
  {
    var card := RateCard(c);
    assert Scaled(c, priceMult).inPerM == (card.inPerM as real * priceMult).Floor by {
      ScaledFloors(card.inPerM, priceMult);
    }
    assert Scaled(c, priceMult).outPerM == (card.outPerM as real * priceMult).Floor by {
      ScaledFloors(card.outPerM, priceMult);
    }
  }

  /** At the lowest tier a job costs its tokens at the scaled rates, to the nearest micro-dollar. */
  lemma GrossIsNearest(c: ModelClass, p: int, q: int, priceMult: real, qualityMult: real)
    requires p >= 0 && q >= 0 && priceMult > 0.0
    ensures var card := RateCard(c);
      var rin, rout := (card.inPerM as real * priceMult).Floor, (card.outPerM as real * priceMult).Floor;
      var gross := QuoteJob(c, Community, p, q, priceMult, qualityMult).grossMicros;
      -500_000 <= 1_000_000 * gross - (p * rin + q * rout) <= 500_000
  {
    ScaledIsFloored(c, priceMult);
    ScaledIsNonNegative(c, priceMult);
    GrossOfRate(Scaled(c, priceMult), p, q);
  }

  lemma ScaledFloors(x: int, m: real)
    requires x >= 0 && m > 0.0
    ensures ScaledPart(x, m) == (x as real * m).Floor
  {
    assert x as real * m >= 0.0;
  }

  lemma ExactInMicros(r: Rate, p: int, q: int)
    ensures MILLION * Exact(r, p, q) == (p * r.inPerM + q * r.outPerM) as real
  {
    assert p as real * r.inPerM as real == (p * r.inPerM) as real;
    assert q as real * r.outPerM as real == (q * r.outPerM) as real;
  }

  lemma NearestInMicros(x: real, n: int)
    requires x >= 0.0 && MILLION * x == n as real
    ensures -500_000 <= 1_000_000 * Trunc(Round(x) as real * 1.0) - n <= 500_000
  {
  }

  /** A higher tier multiplies that price: by 1.4, fractions of a micro-dollar dropped, or by three. */
  lemma TierMultipliesGross(c: ModelClass, p: int, q: int, priceMult: real, qualityMult: real)
    requires p >= 0 && q >= 0
    ensures var gross := QuoteJob(c, Community, p, q, priceMult, qualityMult).grossMicros;
      && QuoteJob(c, DeviceAttested, p, q, priceMult, qualityMult).grossMicros == 14 * gross / 10
      && QuoteJob(c, Confidential, p, q, priceMult, qualityMult).grossMicros == 3 * gross
  {
    BaseIsNonNegative(c, p, q, priceMult);
    TierInTenths(Base(c, p, q, priceMult));
  }

  lemma TierInTenths(base: int)
    requires base >= 0
    ensures Gross(base, Community) == base && Gross(base, DeviceAttested) == 14 * base / 10
    ensures Gross(base, Confidential) == 3 * base
  {
    assert base as real * 1.4 == (14 * base) as real / 10.0;
  }

  /** What a job of price `gross` pays, before rounding: 70 percent of it, 60 at the confidential
      tier, scaled by the quality. */
  function ExactPay(gross: int, t: Tier, qualityMult: real): real {
    gross as real * (if t == Confidential then 0.6 else 0.7) * qualityMult
  }

  ghost predicate IsNearest(n: int, x: real) {
    x - 0.5 < n as real <= x + 0.5
  }

  /** The provider is paid that, to the nearest micro-dollar. */
  lemma ShareIsNearest(c: ModelClass, t: Tier, p: int, q: int, priceMult: real, qualityMult: real)
    requires p >= 0 && q >= 0 && qualityMult > 0.0
    ensures var quote := QuoteJob(c, t, p, q, priceMult, qualityMult);
      IsNearest(quote.providerMicros, ExactPay(quote.grossMicros, t, qualityMult))
  {
    GrossIsNonNegative(c, t, p, q, priceMult, qualityMult);
    NearestShare(Gross(Base(c, p, q, priceMult), t), t, qualityMult);
  }

  lemma GrossIsNonNegative(c: ModelClass, t: Tier, p: int, q: int, priceMult: real, qualityMult: real)
    requires p >= 0 && q >= 0
    ensures QuoteJob(c, t, p, q, priceMult, qualityMult).grossMicros >= 0
  {
    BaseIsNonNegative(c, p, q, priceMult);
    GrossBounds(Base(c, p, q, priceMult), t);
  }

  lemma NearestShare(gross: int, t: Tier, qualityMult: real)
    requires gross >= 0 && qualityMult > 0.0
    ensures IsNearest(Share(gross, t, qualityMult), ExactPay(gross, t, qualityMult))
  {
    assert ExactPay(gross, t, qualityMult) == gross as real * RevShare(t) * Positive(qualityMult) >= 0.0;
    RoundingBounds(gross as real * RevShare(t) * qualityMult);
  }

  /** Multipliers that are not positive count as one. */
  lemma NonPositiveCountsAsOne(c: ModelClass, t: Tier, p: int, q: int, priceMult: real, qualityMult: real)
    ensures priceMult <= 0.0 ==> QuoteJob(c, t, p, q, priceMult, qualityMult) == QuoteJob(c, t, p, q, 1.0, qualityMult)
    ensures qualityMult <= 0.0 ==> QuoteJob(c, t, p, q, priceMult, qualityMult) == QuoteJob(c, t, p, q, priceMult, 1.0)
  {
  }

  /** Size of a class: what it costs is in this order. A class that is not listed is a small one. */
  function Size(c: ModelClass): nat {
    match c
    case Micro => 0
    case Small => 1
    case Unlisted => 1
    case Medium => 2
    case Large => 3
    case XL => 4
    case ConfidentialGpu => 4
  }

  lemma PartPrice(n: int, x: int, y: int)
    requires n >= 0 && x <= y
    ensures n as real * x as real / MILLION <= n as real * y as real / MILLION
  {
    assert n as real * (y - x) as real >= 0.0;
  }

  lemma PriceFollowsExact(x: real, y: real, t: Tier)
    requires x <= y
    ensures Gross(Round(x), t) <= Gross(Round(y), t)
    ensures Share(Gross(Round(x), t), t, 1.0) <= Share(Gross(Round(y), t), t, 1.0)
  {
    RoundingIsMonotone(x, y);
    GrossIsMonotone(Round(x), Round(y), t);
    ShareIsMonotone(Gross(Round(x), t), Gross(Round(y), t), t);
  }

  lemma ScaledInOrder(x: int, y: int, priceMult: real)
    requires x <= y
    ensures ScaledPart(x, priceMult) <= ScaledPart(y, priceMult)
  {
    ScaleInOrder(x, y, Positive(priceMult));
  }

  lemma ScaleInOrder(x: int, y: int, m: real)
    requires x <= y && m >= 0.0
    ensures Scale(x, m) <= Scale(y, m)
  {
    PartIsMonotone(x, y, m);
  }

  lemma HigherRatesCostMore(r: Rate, r': Rate, p: int, q: int)
    requires p >= 0 && q >= 0 && r.inPerM <= r'.inPerM && r.outPerM <= r'.outPerM
    ensures Exact(r, p, q) <= Exact(r', p, q)
  {
    PartPrice(p, r.inPerM, r'.inPerM);
    PartPrice(q, r.outPerM, r'.outPerM);
  }

  lemma LargerClassScales(c: ModelClass, d: ModelClass, priceMult: real)
    requires Size(c) <= Size(d)
    ensures Scaled(c, priceMult).inPerM <= Scaled(d, priceMult).inPerM
    ensures Scaled(c, priceMult).outPerM <= Scaled(d, priceMult).outPerM
  {
    CardInOrder(c, d);
    var x, y := RateCard(c), RateCard(d);
    InRateInOrder(c, d, x, y, priceMult);
    OutRateInOrder(c, d, x, y, priceMult);
  }

  lemma InRateInOrder(c: ModelClass, d: ModelClass, x: Rate, y: Rate, priceMult: real)
    requires x == RateCard(c) && y == RateCard(d) && x.inPerM <= y.inPerM
    ensures Scaled(c, priceMult).inPerM <= Scaled(d, priceMult).inPerM
  {
    ScaledInOrder(x.inPerM, y.inPerM, priceMult);
  }

  lemma OutRateInOrder(c: ModelClass, d: ModelClass, x: Rate, y: Rate, priceMult: real)
    requires x == RateCard(c) && y == RateCard(d) && x.outPerM <= y.outPerM
    ensures Scaled(c, priceMult).outPerM <= Scaled(d, priceMult).outPerM
  {
    ScaledInOrder(x.outPerM, y.outPerM, priceMult);
  }

  lemma CardInOrder(c: ModelClass, d: ModelClass)
    requires Size(c) <= Size(d)
    ensures RateCard(c).inPerM <= RateCard(d).inPerM && RateCard(c).outPerM <= RateCard(d).outPerM
  {
  }

  /** A larger class never costs less, nor pays its provider less. */
  lemma LargerClassCostsNoLess(c: ModelClass, d: ModelClass, t: Tier, p: int, q: int, priceMult: real)
    requires p >= 0 && q >= 0 && Size(c) <= Size(d)
    ensures QuoteJob(c, t, p, q, priceMult, 1.0).grossMicros <= QuoteJob(d, t, p, q, priceMult, 1.0).grossMicros
    ensures QuoteJob(c, t, p, q, priceMult, 1.0).providerMicros <= QuoteJob(d, t, p, q, priceMult, 1.0).providerMicros
  {
    LargerClassScales(c, d, priceMult);
    HigherRatesCostMore(Scaled(c, priceMult), Scaled(d, priceMult), p, q);
    PriceFollowsExact(Exact(Scaled(c, priceMult), p, q), Exact(Scaled(d, priceMult), p, q), t);
  }

  lemma GeneratingInOrder(r: Rate, n: int)
    requires n >= 0 && r.inPerM <= r.outPerM
    ensures Exact(r, n, 0) <= Exact(r, 0, n)
  {
    PartPrice(n, r.inPerM, r.outPerM);
    assert 0 as real * r.outPerM as real / MILLION == 0.0 == 0 as real * r.inPerM as real / MILLION;
  }

  /** Generated tokens never cost less than as many prompt tokens. */
  lemma GeneratingCostsNoLess(c: ModelClass, t: Tier, n: int, priceMult: real)
    requires n >= 0
    ensures QuoteJob(c, t, n, 0, priceMult, 1.0).grossMicros <= QuoteJob(c, t, 0, n, priceMult, 1.0).grossMicros
  {
    ScaledInOrder(RateCard(c).inPerM, RateCard(c).outPerM, priceMult);
    GeneratingInOrder(Scaled(c, priceMult), n);
    PriceFollowsExact(Exact(Scaled(c, priceMult), n, 0), Exact(Scaled(c, priceMult), 0, n), t);
  }

  /** A higher tier never costs less, nor pays its provider less. */
  lemma HigherTierCostsNoLess(c: ModelClass, t: Tier, u: Tier, p: int, q: int, priceMult: real)
    requires p >= 0 && q >= 0 && Rank(t) <= Rank(u)
    ensures QuoteJob(c, t, p, q, priceMult, 1.0).grossMicros <= QuoteJob(c, u, p, q, priceMult, 1.0).grossMicros
    ensures QuoteJob(c, t, p, q, priceMult, 1.0).providerMicros <= QuoteJob(c, u, p, q, priceMult, 1.0).providerMicros
  {
    BaseIsNonNegative(c, p, q, priceMult);
    TiersInOrder(Base(c, p, q, priceMult), t, u);
  }

  lemma TiersInOrder(base: int, t: Tier, u: Tier)
    requires base >= 0 && Rank(t) <= Rank(u)
    ensures Gross(base, t) <= Gross(base, u) && Share(Gross(base, t), t, 1.0) <= Share(Gross(base, u), u, 1.0)
  {
    TierInTenths(base);
    GrossInOrder(base, t, u);
    SharesInOrder(base, Gross(base, t), Gross(base, u), t, u);
    ShareFollows(Gross(base, t), t, Gross(base, u), u);
  }

  lemma GrossInOrder(base: int, t: Tier, u: Tier)
    requires base >= 0 && Rank(t) <= Rank(u)
    ensures Gross(base, t) <= Gross(base, u)
  {
    TierInTenths(base);
  }

  lemma ShareFollows(g: int, t: Tier, g': int, u: Tier)
    requires g as real * RevShare(t) * 1.0 <= g' as real * RevShare(u) * 1.0
    ensures Share(g, t, 1.0) <= Share(g', u, 1.0)
  {
    RoundingIsMonotone(g as real * RevShare(t) * 1.0, g' as real * RevShare(u) * 1.0);
  }

  lemma SharesInOrder(base: int, g: int, g': int, t: Tier, u: Tier)
    requires base >= 0 && Rank(t) <= Rank(u)
    requires g == (if t == Community then base else if t == DeviceAttested then 14 * base / 10 else 3 * base)
    requires g' == (if u == Community then base else if u == DeviceAttested then 14 * base / 10 else 3 * base)
    ensures g as real * RevShare(t) * 1.0 <= g' as real * RevShare(u) * 1.0
  {
  }

  // ---------------------------------------------------------------- what a workload costs

  /** `part` is `exact` without its fraction of a micro-dollar. */
  ghost predicate RoundedDown(part: int, exact: real) {
    0 <= part && exact - 1.0 < part as real <= exact
  }

  /** The price in its own parts: 15% of the compute cost for coordination, `failureRate` of it for
      retries, the margin on all of these, 3% of everything for the card. */
  ghost predicate PartsAddUp(w: WorkloadCost, failureRate: real, marginRate: real) {
    var work := w.compute + w.coordination + w.failure;
    && w.compute >= 0
    && RoundedDown(w.coordination, w.compute as real * 0.15)
    && RoundedDown(w.failure, w.compute as real * failureRate)
    && RoundedDown(w.margin, work as real * marginRate)
    && RoundedDown(w.payment, (work + w.margin) as real * 0.03)
    && w.total == (if work + w.margin + w.payment < 10_000 then 10_000 else work + w.margin + w.payment)
  }

  lemma TruncRoundsDown(x: int, k: real)
    requires x >= 0 && k > 0.0
    ensures RoundedDown(Trunc(x as real * k), x as real * k)
  {
    assert x as real * k >= 0.0;
    RoundingBounds(x as real * k);
  }

  lemma FifteenPercent(x: int)
    requires x >= 0
    ensures RoundedDown(x * 15 / 100, x as real * 0.15)
  {
  }

  lemma BuiltFromParts(compute: int, failureRate: real, marginRate: real)
    requires compute >= 0 && failureRate > 0.0 && marginRate > 0.0
    ensures PartsAddUp(BuildUp(compute, failureRate, marginRate), failureRate, marginRate)
  {
    var coordination, failure := compute * 15 / 100, Trunc(compute as real * failureRate);
    TruncRoundsDown(compute, failureRate);
    FifteenPercent(compute);
    var work := compute + coordination + failure;
    TruncRoundsDown(work, marginRate);
    FinishedFromParts(compute, coordination, failure, Margin(work, marginRate), failureRate, marginRate);
  }

  lemma FinishedFromParts(compute: int, coordination: int, failure: int, margin: int,
                          failureRate: real, marginRate: real)
    requires compute >= 0 && RoundedDown(coordination, compute as real * 0.15)
    requires RoundedDown(failure, compute as real * failureRate)
    requires RoundedDown(margin, (compute + coordination + failure) as real * marginRate)
    ensures PartsAddUp(Finish(compute, coordination, failure, margin), failureRate, marginRate)
  {
    TruncRoundsDown(compute + coordination + failure + margin, 0.03);
  }

  /** The total is what its parts add up to, or the minimum, for every request. The redundant runs
      share one allowance of 8% for retries; a margin rate that is not positive counts as 30%. */
  lemma PriceIsItsParts(c: ModelClass, t: Tier, p: int, q: int, redundancy: int, marginRate: real, priceMult: real)
    ensures PartsAddUp(QuoteWorkload(c, t, p, q, redundancy, marginRate, priceMult),
                       0.08 / (if redundancy < 1 then 1 else redundancy) as real,
                       if marginRate <= 0.0 then 0.30 else marginRate)
  {
    assert FailureRate(redundancy) > 0.0;
    BuiltFromParts(Compute(c, t, p, q, redundancy, priceMult), FailureRate(redundancy),
                   if marginRate <= 0.0 then 0.30 else marginRate);
  }

  /** The caller never pays less than the compute cost, nor less than the minimum. */
  lemma PriceCoversCompute(c: ModelClass, t: Tier, p: int, q: int, redundancy: int, marginRate: real, priceMult: real)
    ensures var w := QuoteWorkload(c, t, p, q, redundancy, marginRate, priceMult);
      w.total >= w.compute && w.total >= 10_000
  {
    PriceIsItsParts(c, t, p, q, redundancy, marginRate, priceMult);
    CoversCompute(QuoteWorkload(c, t, p, q, redundancy, marginRate, priceMult),
                  0.08 / (if redundancy < 1 then 1 else redundancy) as real,
                  if marginRate <= 0.0 then 0.30 else marginRate);
  }

  lemma CoversCompute(w: WorkloadCost, failureRate: real, marginRate: real)
    requires PartsAddUp(w, failureRate, marginRate)
    ensures w.total >= w.compute && w.total >= 10_000
  {
  }

  /** The compute cost is what one provider would be paid for the tokens of all redundant runs. */
  lemma ComputeIsOnePayment(c: ModelClass, t: Tier, p: int, q: int, redundancy: int, marginRate: real, priceMult: real)
    requires p >= 0 && q >= 0
    requires var runs := if redundancy < 1 then 1 else redundancy;
      p * runs <= 0x100_0000_0000 && q * runs <= 0x100_0000_0000
    ensures var runs := if redundancy < 1 then 1 else redundancy;
      QuoteWorkload(c, t, p, q, redundancy, marginRate, priceMult).compute
      == QuoteJob(c, t, p * runs, q * runs, priceMult, 1.0).providerMicros
  {
    var runs := AtLeastOne(redundancy);
    TimesAtLeastOne(p, runs);
    TimesAtLeastOne(q, runs);
    ShareStaysWithinGross(c, t, p * runs, q * runs, priceMult, 1.0);
  }
}
