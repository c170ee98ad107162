/** The list price of a turn. Prices are dollars a million tokens, that is micro-dollars a token; they are
    kept in hundredths of a micro-dollar a token so that every entry of the price table is whole. */
module Pricing {
  import opened Options
  import opened Tables

  datatype Price = Price(input: nat, output: nat, cacheRead: nat, cacheCreation5m: nat, cacheCreation1h: nat)

  const OPUS := Price(1500, 7500, 150, 1875, 3000)
  const SONNET := Price(300, 1500, 30, 375, 600)
  const HAIKU := Price(100, 500, 10, 125, 200)
  const CLAUDE5 := Price(1000, 5000, 100, 1250, 2000)

  function GetPricing(model: Model): Option<Price> {
    match model
    case Opus => Some(OPUS)
    case Sonnet => Some(SONNET)
    case Haiku => Some(HAIKU)
    case Claude5 => Some(CLAUDE5)
    case Unpriced => None
  }

  /** The arguments of a cost computation; the three cache-creation buckets may be absent. */
  datatype CostArgs = CostArgs(model: Model, input: nat, output: nat, cacheRead: nat,
                               bucket5m: Option<nat>, bucket1h: Option<nat>, legacy: Option<nat>, tier: Tier)

  /** A split bucket wins over the legacy aggregate, which is billed as 5-minute tokens when it is used. */
  function Buckets(a: CostArgs): (nat, nat) {
    if a.bucket5m.Some? then (a.bucket5m.value, if a.bucket1h.Some? then a.bucket1h.value else 0)
    else if a.bucket1h.Some? then (0, a.bucket1h.value)
    else if a.legacy.Some? then (a.legacy.value, 0)
    else (0, 0)
  }

  function RawCost(p: Price, a: CostArgs): nat {
    var (tokens5m, tokens1h) := Buckets(a);
    a.input * p.input + a.output * p.output + a.cacheRead * p.cacheRead
      + tokens5m * p.cacheCreation5m + tokens1h * p.cacheCreation1h
  }

  /** `Math.round(n / d)`: halves go up. */
  function Round(n: nat, d: nat): nat
    requires d > 0
  {
    (2 * n + d) / (2 * d)
  }

  /** Cost in micro-dollars; a batch turn costs half before rounding, an unpriced model nothing. */
  function ComputeCost(a: CostArgs): nat {
    match GetPricing(a.model)
    case None => 0
    case Some(p) => Round(RawCost(p, a), if a.tier == Batch then 200 else 100)
  }

  /** The cost recorded when a turn is ingested: both split buckets and the service tier are passed. */
  function IngestCost(model: Model, u: Usage, tier: Tier): nat {
    ComputeCost(CostArgs(model, u.input, u.output, u.cacheRead,
                         Some(u.cacheCreation5m), Some(u.cacheCreation1h), None, tier))
  }

  predicate HasSplit(u: Usage) {
    u.cacheCreation5m > 0 || u.cacheCreation1h > 0
  }

  /** The cost the recompute script derives from a stored turn: the split buckets only if one is non-zero,
      the legacy aggregate otherwise, and never the service tier. */
  function RecomputeCost(model: Model, u: Usage): nat {
    ComputeCost(
      if HasSplit(u) then
        CostArgs(model, u.input, u.output, u.cacheRead, Some(u.cacheCreation5m), Some(u.cacheCreation1h), None,
                 Standard)
      else
        CostArgs(model, u.input, u.output, u.cacheRead, None, None, Some(u.cacheCreation), Standard))
  }

  /** Rounding is to the nearest micro-dollar, and an exact half goes up. */
  lemma RoundIsNearest(n: nat, d: nat)
    requires d > 0
    ensures 2 * n - d < 2 * d * Round(n, d) <= 2 * n + d
  {
    var q := Round(n, d);
    assert (2 * n + d) == 2 * d * q + (2 * n + d) % (2 * d);
  }

  /** A raw cost, in hundredths of a micro-dollar, that rounds the same whether halved or not. */
  predicate HalvesAlike(raw: nat) {
    raw < 50 || 100 <= raw < 150
  }

  lemma HalvingShows(raw: nat)
    ensures Round(raw, 200) == Round(raw, 100) <==> HalvesAlike(raw)
    ensures Round(raw, 200) <= Round(raw, 100)
  {
  }

  /** What the split buckets alone cost, as ingest bills them. */
  function SplitRaw(p: Price, u: Usage): nat {
    u.input * p.input + u.output * p.output + u.cacheRead * p.cacheRead
      + u.cacheCreation5m * p.cacheCreation5m + u.cacheCreation1h * p.cacheCreation1h
  }

  /** When recomputing a freshly ingested turn leaves its cost alone: the aggregate must not be billed in
      place of empty split buckets, and the ignored batch discount must be lost in rounding. */
  predicate NoDrift(model: Model, u: Usage, tier: Tier) {
    match GetPricing(model)
    case None => true
    case Some(p) =>
      && (HasSplit(u) || u.cacheCreation == 0)
      && (tier == Batch ==> HalvesAlike(SplitRaw(p, u)))
  }

  lemma AggregateShows(p: Price, raw: nat, aggregate: nat, d: nat)
    requires (d == 100 || d == 200) && aggregate > 0 && p.cacheCreation5m >= 125
    ensures Round(raw, d) < Round(raw + aggregate * p.cacheCreation5m, 100)
  {
    assert aggregate * p.cacheCreation5m >= 125 by {
      assert (aggregate - 1) * p.cacheCreation5m >= 0;
    }
  }

  lemma IngestBillsSplit(model: Model, u: Usage, tier: Tier, p: Price)
    requires GetPricing(model) == Some(p)
    ensures IngestCost(model, u, tier) == Round(SplitRaw(p, u), if tier == Batch then 200 else 100)
  {
  }

  lemma RecomputeBills(model: Model, u: Usage, p: Price)
    requires GetPricing(model) == Some(p)
    ensures RecomputeCost(model, u)
         == Round(SplitRaw(p, u) + if HasSplit(u) then 0 else u.cacheCreation * p.cacheCreation5m, 100)
  {
    if !HasSplit(u) {
      assert u.cacheCreation5m * p.cacheCreation5m == 0 && u.cacheCreation1h * p.cacheCreation1h == 0;
    }
  }

  /** Recomputing right after ingest is a no-op for a turn exactly if `NoDrift` holds of its columns. */
  lemma RecomputeMatchesIngest(model: Model, u: Usage, tier: Tier)
    ensures RecomputeCost(model, u) == IngestCost(model, u, tier) <==> NoDrift(model, u, tier)
  {
    if model != Unpriced {
      var p := GetPricing(model).value;
      IngestBillsSplit(model, u, tier, p);
      RecomputeBills(model, u, p);
      HalvingShows(SplitRaw(p, u));
      if u.cacheCreation > 0 {
        AggregateShows(p, SplitRaw(p, u), u.cacheCreation, if tier == Batch then 200 else 100);
      }
    }
  }

  /** The documented case: no batch tier, and split buckets whenever there is an aggregate. */
  lemma StandardSplitTurnsDoNotDrift(model: Model, u: Usage, tier: Tier)
    requires tier != Batch && (HasSplit(u) || u.cacheCreation == 0)
    ensures RecomputeCost(model, u) == IngestCost(model, u, tier)
  {
    RecomputeMatchesIngest(model, u, tier);
  }

  /** An aggregate without split buckets is billed by the script and not by ingest; a batch discount is lost. */
  lemma DriftingTurns()
    ensures IngestCost(Opus, Usage(0, 0, 0, 1, 0, 0), Standard) == 0
    ensures RecomputeCost(Opus, Usage(0, 0, 0, 1, 0, 0)) == 19
    ensures IngestCost(Opus, Usage(2, 0, 0, 0, 0, 0), Batch) == 15 && RecomputeCost(Opus, Usage(2, 0, 0, 0, 0, 0)) == 30
  {
  }

  // ---------------------------------------------------------------- the list

  /** A million tokens of each kind, in the order of the usage columns. */
  const MILLION_INPUT := Usage(1_000_000, 0, 0, 0, 0, 0)
  const MILLION_OUTPUT := Usage(0, 1_000_000, 0, 0, 0, 0)
  const MILLION_CACHE_READ := Usage(0, 0, 1_000_000, 0, 0, 0)
  const MILLION_CACHE_5M := Usage(0, 0, 0, 0, 1_000_000, 0)
  const MILLION_CACHE_1H := Usage(0, 0, 0, 0, 0, 1_000_000)

  /** What a million tokens of each kind cost, in micro-dollars, outside the batch tier. */
  predicate Costs(model: Model, input: nat, output: nat, cacheRead: nat, cache5m: nat, cache1h: nat) {
    && IngestCost(model, MILLION_INPUT, Standard) == input
    && IngestCost(model, MILLION_OUTPUT, Standard) == output
    && IngestCost(model, MILLION_CACHE_READ, Standard) == cacheRead
    && IngestCost(model, MILLION_CACHE_5M, Standard) == cache5m
    && IngestCost(model, MILLION_CACHE_1H, Standard) == cache1h
  }

  /** What a million tokens cost is 10 000 times the price of a token. */
  lemma MillionCosts(model: Model, p: Price)
    requires GetPricing(model) == Some(p)
    ensures Costs(model, 10_000 * p.input, 10_000 * p.output, 10_000 * p.cacheRead, 10_000 * p.cacheCreation5m,
                  10_000 * p.cacheCreation1h)
  {
    IngestBillsSplit(model, MILLION_INPUT, Standard, p);
    IngestBillsSplit(model, MILLION_OUTPUT, Standard, p);
    IngestBillsSplit(model, MILLION_CACHE_READ, Standard, p);
    IngestBillsSplit(model, MILLION_CACHE_5M, Standard, p);
    IngestBillsSplit(model, MILLION_CACHE_1H, Standard, p);
  }

  /** The list prices: 15 dollars for a million input tokens of Opus, and so on. */
  lemma ListPrices()
    ensures Costs(Opus, 15_000_000, 75_000_000, 1_500_000, 18_750_000, 30_000_000)
    ensures Costs(Sonnet, 3_000_000, 15_000_000, 300_000, 3_750_000, 6_000_000)
    ensures Costs(Haiku, 1_000_000, 5_000_000, 100_000, 1_250_000, 2_000_000)
    ensures Costs(Claude5, 10_000_000, 50_000_000, 1_000_000, 12_500_000, 20_000_000)
    ensures Costs(Unpriced, 0, 0, 0, 0, 0)
  {
    MillionCosts(Opus, OPUS);
    MillionCosts(Sonnet, SONNET);
    MillionCosts(Haiku, HAIKU);
    MillionCosts(Claude5, CLAUDE5);
  }

  lemma Scaled(n: nat, price: nat)
    ensures n * (10_000 * price) == 10_000 * (n * price)
  {
  }

  /** The tokens of a turn at what a million of each kind costs. */
  function Listed(u: Usage, input: nat, output: nat, cacheRead: nat, cache5m: nat, cache1h: nat): int {
    u.input * input + u.output * output + u.cacheRead * cacheRead + u.cacheCreation5m * cache5m
    + u.cacheCreation1h * cache1h
  }

  lemma ListedIsRaw(u: Usage, p: Price)
    ensures Listed(u, 10_000 * p.input, 10_000 * p.output, 10_000 * p.cacheRead, 10_000 * p.cacheCreation5m,
                   10_000 * p.cacheCreation1h) == 10_000 * SplitRaw(p, u)
  {
    Scaled(u.input, p.input);
    Scaled(u.output, p.output);
    Scaled(u.cacheRead, p.cacheRead);
    Scaled(u.cacheCreation5m, p.cacheCreation5m);
    Scaled(u.cacheCreation1h, p.cacheCreation1h);
  }

  lemma NothingListed(u: Usage)
    ensures Listed(u, 0, 0, 0, 0, 0) == 0
  {
  }

  /** A turn costs its tokens at what a million of each kind costs, to the nearest micro-dollar with halves up; half
      that in the batch tier. The aggregate of cache-creation tokens plays no part. */
  lemma CostIsNearest(model: Model, u: Usage, tier: Tier, input: nat, output: nat, cacheRead: nat, cache5m: nat,
                      cache1h: nat)
    requires Costs(model, input, output, cacheRead, cache5m, cache1h)
    ensures var cost: int := IngestCost(model, u, tier);
      var listed := Listed(u, input, output, cacheRead, cache5m, cache1h);
      var millions := if tier == Batch then 2_000_000 else 1_000_000;
      2 * listed - millions < 2 * millions * cost <= 2 * listed + millions
  {
    if model == Unpriced {
      NothingListed(u);
    } else {
      var p := GetPricing(model).value;
      MillionCosts(model, p);
      ListedIsRaw(u, p);
      IngestBillsSplit(model, u, tier, p);
      RoundIsNearest(SplitRaw(p, u), if tier == Batch then 200 else 100);
    }
  }

  /** The script bills the split buckets if one is not zero, else the aggregate as 5-minute tokens, never half. */
  lemma RecomputeIsListPrice(model: Model, u: Usage)
    ensures RecomputeCost(model, u) ==
      IngestCost(model, if u.cacheCreation5m == 0 && u.cacheCreation1h == 0 then u.(cacheCreation5m := u.cacheCreation)
                        else u, Standard)
  {
  }
}
