/** Provider prices and the cost estimate of src/billing/provider-pricing.ts; money is real. */
module ProviderPricing {
  import opened Wrappers

  /** USD per million tokens. */
  datatype Tariff = Tariff(input: real, cacheRead: Option<real>, output: real)

  /** `offPeak` None: the base tariff always holds. Peak hours are [from, to) in UTC. */
  datatype ProviderPrice =
    ProviderPrice(base: Tariff, offPeak: Option<Tariff>, peakHoursUtc: seq<(nat, nat)>, peakWeekdaysOnly: bool)

  datatype Usage = Usage(promptTokens: Option<nat>, completionTokens: Option<nat>,
                         cachedTokens: Option<nat>, cacheWriteTokens: Option<nat>)

  datatype Quality = Exact | Partial | NoPrice | Unpriceable

  datatype Estimate = Estimate(usd: Option<real>, quality: Quality)

  const NO_PRICE: Estimate := Estimate(None, NoPrice)

  const HOUR_MS := 3_600_000
  const DAY_MS := 86_400_000

  /** getUTCHours of a time in milliseconds since the epoch. */
  function UtcHour(ts: int): nat {
    ts / HOUR_MS % 24
  }

  /** getUTCDay: the epoch was a Thursday. */
  function UtcDay(ts: int): nat {
    (ts / DAY_MS + 4) % 7
  }

  predicate IsPeak(price: ProviderPrice, ts: int) {
    || price.offPeak.None?
    || (&& !(price.peakWeekdaysOnly && (UtcDay(ts) == 0 || UtcDay(ts) == 6))
        && exists i :: 0 <= i < |price.peakHoursUtc| &&
             price.peakHoursUtc[i].0 <= UtcHour(ts) < price.peakHoursUtc[i].1)
  }

  function TariffAt(price: ProviderPrice, ts: int): Tariff {
    if price.offPeak.Some? && !IsPeak(price, ts) then price.offPeak.value else price.base
  }

  function OrZero(n: Option<nat>): nat {
    if n.Some? then n.value else 0
  }

  function AtMost(a: nat, b: nat): nat {
    if a < b then a else b
  }

  function EstimateCost(price: Option<ProviderPrice>, usage: Usage, ts: int): Estimate {
    var prompt, completion := OrZero(usage.promptTokens), OrZero(usage.completionTokens);
    if price.None? || (prompt == 0 && completion == 0) then NO_PRICE
    else
      var t := TariffAt(price.value, ts);
      var cached := AtMost(OrZero(usage.cachedTokens), prompt);
      var cacheWrite := AtMost(OrZero(usage.cacheWriteTokens), prompt - cached);
      var uncached := prompt - cached - cacheWrite;
      var cachePrice := if t.cacheRead.Some? then t.cacheRead.value else t.input;
      var total := uncached as real * t.input + cached as real * cachePrice
                   + cacheWrite as real * t.input + completion as real * t.output;
      Estimate(Some(total / 1_000_000.0), if cached > 0 && t.cacheRead.None? then Partial else Exact)
  }

  /**
   Cached tokens are part of the prompt and are not paid twice: every prompt token is paid once, the
   cached ones at the cache price. An estimate exists exactly if there is a price and any token.
   */
  lemma EveryTokenPaidOnce(price: Option<ProviderPrice>, usage: Usage, ts: int)
    ensures var prompt, completion := OrZero(usage.promptTokens), OrZero(usage.completionTokens);
            var e := EstimateCost(price, usage, ts);
            && (e.usd.Some? <==> price.Some? && prompt + completion > 0)
            && (e.usd.None? <==> e == NO_PRICE)
            && (e.usd.Some? ==>
                var t := TariffAt(price.value, ts);
                var cached := AtMost(OrZero(usage.cachedTokens), prompt);
                var discount := if t.cacheRead.Some? then t.input - t.cacheRead.value else 0.0;
                e.usd.value * 1_000_000.0 ==
                prompt as real * t.input - cached as real * discount + completion as real * t.output)
  {
    if price.Some? {
      var t := TariffAt(price.value, ts);
      var prompt := OrZero(usage.promptTokens);
      var cached := AtMost(OrZero(usage.cachedTokens), prompt);
      var cacheWrite := AtMost(OrZero(usage.cacheWriteTokens), prompt - cached);
      var uncached := prompt - cached - cacheWrite;
      var cachePrice := if t.cacheRead.Some? then t.cacheRead.value else t.input;
      assert prompt as real == uncached as real + cached as real + cacheWrite as real;
      Distribute(uncached as real, cached as real, cacheWrite as real, t.input, cachePrice);
    }
  }

  /** What the tokens cost at a tariff, in millionths of a dollar. */
  function PaidAt(t: Tariff, usage: Usage): real {
    var prompt := OrZero(usage.promptTokens);
    var cached := AtMost(OrZero(usage.cachedTokens), prompt);
    (prompt - cached) as real * t.input + cached as real * t.cacheRead.GetOr(t.input)
    + OrZero(usage.completionTokens) as real * t.output
  }

  /** Day 2 after the epoch, the third of January 1970, was a Saturday. */
  ghost predicate IsWeekend(day: int) {
    exists week :: day == 7 * week + 2 || day == 7 * week + 3
  }

  /** The base tariff holds all day without an off-peak tariff, and otherwise in the listed hours, on weekends perhaps not at all. */
  ghost predicate BaseHolds(price: ProviderPrice, day: int, hour: nat) {
    || price.offPeak.None?
    || ((exists range :: range in price.peakHoursUtc && range.0 <= hour < range.1) && !(price.peakWeekdaysOnly && IsWeekend(day)))
  }

  lemma WeekdayOf(day: int)
    ensures IsWeekend(day) <==> (day + 4) % 7 == 0 || (day + 4) % 7 == 6
  {
    if IsWeekend(day) {
      var week :| day == 7 * week + 2 || day == 7 * week + 3;
      assert (day + 4) % 7 == if day == 7 * week + 2 then 6 else 0;
    } else {
      var week := (day - 2) / 7;
      assert day != 7 * week + 2 && day != 7 * week + 3;
    }
  }

  lemma HourOf(day: int, hour: nat, rest: nat)
    requires hour < 24 && rest < HOUR_MS
    ensures UtcHour(day * DAY_MS + hour * HOUR_MS + rest) == hour && UtcDay(day * DAY_MS + hour * HOUR_MS + rest) == (day + 4) % 7
  {
    var ts := day * DAY_MS + hour * HOUR_MS + rest;
    assert ts / HOUR_MS == day * 24 + hour;
    assert ts / DAY_MS == day;
  }

  /**
   Which tariff an attempt is estimated at, and to what: at its UTC hour and day, that of the peak in
   the peak hours and the other one outside them.
   */
  lemma EstimateExactly(price: ProviderPrice, usage: Usage, day: int, hour: nat, rest: nat)
    requires hour < 24 && rest < HOUR_MS
    ensures var e := EstimateCost(Some(price), usage, day * DAY_MS + hour * HOUR_MS + rest);
            var t := if BaseHolds(price, day, hour) then price.base else price.offPeak.value;
            e == if OrZero(usage.promptTokens) + OrZero(usage.completionTokens) == 0 then NO_PRICE
                 else Estimate(Some(PaidAt(t, usage) / 1_000_000.0),
                               if t.cacheRead.None? && AtMost(OrZero(usage.cachedTokens), OrZero(usage.promptTokens)) > 0
                               then Partial else Exact)
  {
    var ts := day * DAY_MS + hour * HOUR_MS + rest;
    HourOf(day, hour, rest);
    WeekdayOf(day);
    hide UtcHour, UtcDay, IsWeekend;
    TariffExactly(price, ts, day, hour);
    hide TariffAt, IsPeak, BaseHolds;
    EveryTokenPaidOnce(Some(price), usage, ts);
    var t := TariffAt(price, ts);
    var prompt := OrZero(usage.promptTokens);
    var cached := AtMost(OrZero(usage.cachedTokens), prompt);
    Distribute((prompt - cached) as real, cached as real, 0.0, t.input, t.cacheRead.GetOr(t.input));
    assert (prompt - cached) as real + cached as real == prompt as real;
    if prompt + OrZero(usage.completionTokens) > 0 {
      assert EstimateCost(Some(price), usage, ts).usd.value * 1_000_000.0 == PaidAt(t, usage);
      assert EstimateCost(Some(price), usage, ts).usd.value == PaidAt(t, usage) / 1_000_000.0;
      assert EstimateCost(Some(price), usage, ts).quality == if t.cacheRead.None? && cached > 0 then Partial else Exact;
    }
    assert t == if BaseHolds(price, day, hour) then price.base else price.offPeak.value;
  }

  lemma TariffExactly(price: ProviderPrice, ts: int, day: int, hour: nat)
    requires UtcHour(ts) == hour && (IsWeekend(day) <==> UtcDay(ts) == 0 || UtcDay(ts) == 6)
    ensures BaseHolds(price, day, hour) ==> TariffAt(price, ts) == price.base
    ensures !BaseHolds(price, day, hour) ==> price.offPeak.Some? && TariffAt(price, ts) == price.offPeak.value
  {
    hide UtcHour, UtcDay, IsWeekend;
    if i :| 0 <= i < |price.peakHoursUtc| && price.peakHoursUtc[i].0 <= hour < price.peakHoursUtc[i].1 {
      assert price.peakHoursUtc[i] in price.peakHoursUtc;
    }
  }

  lemma Distribute(a: real, b: real, c: real, x: real, y: real)
    ensures a * x + b * y + c * x == (a + b + c) * x - b * (x - y)
  {
  }
}
