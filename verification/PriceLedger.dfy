/**
 Estimates of agent attempts at the prices the administrator sets: src/storage/provider-prices-repo.ts,
 src/billing/provider-reprice.ts, the insertion of src/journal/billing-sink.ts, the price routes of
 src/admin/routes/providers.ts and the seeding of src/billing/seed-provider-prices.ts. The estimates
 are kept up to date row by row; they always equal a full recomputation.
 */
module PriceLedger {
  import opened Wrappers
  import opened ProviderPricing

  /** A saved version; `price` is None when its JSON cannot be read. */
  datatype PriceRow = PriceRow(id: nat, providerId: nat, model: string, effectiveFrom: int, price: Option<ProviderPrice>)

  /** An attempt's estimate, its quality and the version it was made with. */
  datatype Priced = Priced(usd: Option<real>, quality: Quality, priceId: Option<nat>)

  const UNPRICED: Priced := Priced(None, NoPrice, None)

  /**
   An attempt of the ledger. `measured`: the provider reported the cost (usage_source = 'response').
   `byCatalogue`: the provider was OpenRouter when the attempt was made. The row id is its position.
   */
  datatype Attempt = Attempt(executionId: string, attemptNo: nat, agent: bool, providerId: nat, model: string,
                             tsStarted: int, usage: Usage, measured: bool, byCatalogue: bool, estimate: Priced)

  predicate Matches(r: PriceRow, providerId: nat, model: string, ts: int) {
    r.providerId == providerId && r.model == model && r.effectiveFrom <= ts
  }

  /** ORDER BY effective_from DESC, id DESC */
  predicate Before(a: PriceRow, b: PriceRow) {
    a.effectiveFrom < b.effectiveFrom || (a.effectiveFrom == b.effectiveFrom && a.id < b.id)
  }

  /** The row that the query of priceAt finds. */
  function RowAt(prices: seq<PriceRow>, providerId: nat, model: string, ts: int): Option<PriceRow> {
    if prices == [] then None
    else
      var last := prices[|prices| - 1];
      var rest := RowAt(prices[..|prices| - 1], providerId, model, ts);
      if Matches(last, providerId, model, ts) && (rest.None? || Before(rest.value, last)) then Some(last) else rest
  }

  /** The query's meaning: a matching row that no other matching row comes after. */
  lemma {:induction false} RowAtIsLatest(prices: seq<PriceRow>, providerId: nat, model: string, ts: int)
    ensures var r := RowAt(prices, providerId, model, ts);
            && (r.Some? ==> r.value in prices && Matches(r.value, providerId, model, ts))
            && forall row :: row in prices && Matches(row, providerId, model, ts) ==> r.Some? && !Before(r.value, row)
  {
    if prices != [] {
      RowAtIsLatest(prices[..|prices| - 1], providerId, model, ts);
      assert forall row :: row in prices ==> row in prices[..|prices| - 1] || row == prices[|prices| - 1];
    }
  }

  /** What estimating an attempt from scratch gives. */
  function Recomputed(prices: seq<PriceRow>, a: Attempt): Priced {
    var row := RowAt(prices, a.providerId, a.model, a.tsStarted);
    var e := EstimateCost(if row.Some? then row.value.price else None, a.usage, a.tsStarted);
    Priced(e.usd, e.quality, if e.usd.None? || row.None? then None else Some(row.value.id))
  }

  /** The version is saved for the provider and model and in effect by then, and no such version is newer: by its date, then by its id. */
  predicate InForce(r: PriceRow, prices: seq<PriceRow>, providerId: nat, model: string, ts: int) {
    && r in prices && r.providerId == providerId && r.model == model && r.effectiveFrom <= ts
    && forall row :: row in prices && row.providerId == providerId && row.model == model && row.effectiveFrom <= ts ==>
         row.effectiveFrom < r.effectiveFrom || (row.effectiveFrom == r.effectiveFrom && row.id <= r.id)
  }

  lemma RowAtIsInForce(prices: seq<PriceRow>, providerId: nat, model: string, ts: int)
    ensures var r := RowAt(prices, providerId, model, ts);
            if r.Some? then InForce(r.value, prices, providerId, model, ts)
            else forall row :: row in prices && row.providerId == providerId && row.model == model ==> row.effectiveFrom > ts
  {
    RowAtIsLatest(prices, providerId, model, ts);
    hide RowAt;
  }

  /**
   What an attempt is estimated at: its tokens at the tariff that holds at the hour and day of its start,
   of the version in force then.
   */
  lemma EstimatedAt(prices: seq<PriceRow>, a: Attempt, r: PriceRow, day: int, hour: nat, rest: nat)
    requires InForce(r, prices, a.providerId, a.model, a.tsStarted) && r.price.Some?
    requires forall row :: row in prices && row.id == r.id ==> row == r
    requires hour < 24 && rest < HOUR_MS && a.tsStarted == day * DAY_MS + hour * HOUR_MS + rest
    ensures var t := if BaseHolds(r.price.value, day, hour) then r.price.value.base else r.price.value.offPeak.value;
            Recomputed(prices, a) ==
            if OrZero(a.usage.promptTokens) + OrZero(a.usage.completionTokens) == 0 then UNPRICED
            else Priced(Some(PaidAt(t, a.usage) / 1_000_000.0),
                        if t.cacheRead.None? && AtMost(OrZero(a.usage.cachedTokens), OrZero(a.usage.promptTokens)) > 0
                        then Partial else Exact, Some(r.id))
  {
    RowAtIsInForce(prices, a.providerId, a.model, a.tsStarted);
    hide RowAt;
    EstimateExactly(r.price.value, a.usage, day, hour, rest);
    hide EstimateCost, BaseHolds, PaidAt;
  }

  /** A catalogue estimate names no version of the administrator's prices. */
  function ByCatalogue(e: Estimate): Priced {
    Priced(e.usd, e.quality, None)
  }

  /** The attempts whose estimates come from the administrator's prices. */
  predicate ByAdminPrices(a: Attempt) {
    a.agent && !a.byCatalogue && !a.measured
  }

  /** Every such attempt carries exactly what a full recomputation gives. */
  predicate Consistent(prices: seq<PriceRow>, attempts: seq<Attempt>) {
    forall i :: 0 <= i < |attempts| && ByAdminPrices(attempts[i]) ==> attempts[i].estimate == Recomputed(prices, attempts[i])
  }

  /** The rows that clearEstimates updates: the model's agent attempts without a measured cost. */
  predicate Clearable(a: Attempt, providerId: nat, model: string) {
    a.agent && a.providerId == providerId && a.model == model && !a.measured
  }

  /** The rows that repriceRows selects: those of them from a moment on. */
  predicate Selected(a: Attempt, providerId: nat, model: string, fromTs: int) {
    Clearable(a, providerId, model) && a.tsStarted >= fromTs
  }

  /** The ledger after repriceProviderModel. */
  function Repriced(prices: seq<PriceRow>, attempts: seq<Attempt>, providerId: nat, model: string, fromTs: int): seq<Attempt> {
    seq(|attempts|, (i: nat) requires i < |attempts| =>
      if Selected(attempts[i], providerId, model, fromTs)
      then attempts[i].(estimate := Recomputed(prices, attempts[i])) else attempts[i])
  }

  /** The ids of the selected rows among the first ones. */
  function SelectedUpTo(attempts: seq<Attempt>, providerId: nat, model: string, fromTs: int, n: nat): set<int> {
    set i | 0 <= i < n && i < |attempts| && Selected(attempts[i], providerId, model, fromTs)
  }

  lemma OneMoreSelected(attempts: seq<Attempt>, providerId: nat, model: string, fromTs: int, n: nat)
    requires n < |attempts|
    ensures |SelectedUpTo(attempts, providerId, model, fromTs, n + 1)| ==
            |SelectedUpTo(attempts, providerId, model, fromTs, n)| + if Selected(attempts[n], providerId, model, fromTs) then 1 else 0
    ensures SelectedUpTo(attempts, providerId, model, fromTs, 0) == {}
  {
    assert SelectedUpTo(attempts, providerId, model, fromTs, n + 1) == SelectedUpTo(attempts, providerId, model, fromTs, n) +
      if Selected(attempts[n], providerId, model, fromTs) then {n} else {};
  }

  /** The ledger after clearEstimates. */
  function Cleared(attempts: seq<Attempt>, providerId: nat, model: string): seq<Attempt> {
    seq(|attempts|, (i: nat) requires i < |attempts| =>
      if Clearable(attempts[i], providerId, model) then attempts[i].(estimate := UNPRICED) else attempts[i])
  }

  function Without(prices: seq<PriceRow>, providerId: nat, model: string): seq<PriceRow> {
    if prices == [] then []
    else
      var last := prices[|prices| - 1];
      Without(prices[..|prices| - 1], providerId, model) +
      if last.providerId == providerId && last.model == model then [] else [last]
  }

  lemma {:induction false} WithoutKeeps(prices: seq<PriceRow>, providerId: nat, model: string)
    ensures var kept := Without(prices, providerId, model);
            && |kept| <= |prices| && (|kept| == |prices| ==> kept == prices)
            && forall i :: 0 <= i < |kept| ==> kept[i] in prices
  {
    if prices != [] {
      WithoutKeeps(prices[..|prices| - 1], providerId, model);
    }
  }

  lemma RowAtAppend(rows: seq<PriceRow>, last: PriceRow, p: nat, m: string, ts: int)
    ensures var rest := RowAt(rows, p, m, ts);
            RowAt(rows + [last], p, m, ts) ==
            if Matches(last, p, m, ts) && (rest.None? || Before(rest.value, last)) then Some(last) else rest
  {
    assert (rows + [last])[..|rows|] == rows;
  }

  lemma {:induction false} WithoutFindsRest(prices: seq<PriceRow>, providerId: nat, model: string, p: nat, m: string, ts: int)
    ensures RowAt(Without(prices, providerId, model), p, m, ts) ==
            if p == providerId && m == model then None else RowAt(prices, p, m, ts)
  {
    hide Before;
    if prices != [] {
      var last := prices[|prices| - 1];
      var rest := Without(prices[..|prices| - 1], providerId, model);
      WithoutFindsRest(prices[..|prices| - 1], providerId, model, p, m, ts);
      if last.providerId == providerId && last.model == model {
        assert rest + [] == rest;
      } else {
        RowAtAppend(rest, last, p, m, ts);
      }
    }
  }

  /**
   What a posted price does to an attempt: the estimate of an agent's attempt at that provider and model
   from the price's date on, without a measured cost, becomes the recomputed one; nothing else changes.
   */
  lemma RepricedExactly(prices: seq<PriceRow>, attempts: seq<Attempt>, providerId: nat, model: string, fromTs: int, i: nat)
    requires i < |attempts|
    ensures |Repriced(prices, attempts, providerId, model, fromTs)| == |attempts|
    ensures var a, after := attempts[i], Repriced(prices, attempts, providerId, model, fromTs)[i];
            after == a.(estimate :=
              if a.agent && !a.measured && a.providerId == providerId && a.model == model && fromTs <= a.tsStarted
              then Recomputed(prices, a) else a.estimate)
  {
    hide Recomputed;
  }

  /** What a deletion does to an attempt: an agent's attempt at that provider and model without a measured cost loses its estimate. */
  lemma ClearedExactly(attempts: seq<Attempt>, providerId: nat, model: string, i: nat)
    requires i < |attempts|
    ensures |Cleared(attempts, providerId, model)| == |attempts|
    ensures var a, after := attempts[i], Cleared(attempts, providerId, model)[i];
            after == a.(estimate :=
              if a.agent && !a.measured && a.providerId == providerId && a.model == model
              then Priced(None, NoPrice, None) else a.estimate)
  {
  }

  /** Repricing only the model's rows from the new version's date is enough. */
  lemma RepricingIsEnough(prices: seq<PriceRow>, attempts: seq<Attempt>, row: PriceRow)
    requires Consistent(prices, attempts)
    ensures Consistent(prices + [row], Repriced(prices + [row], attempts, row.providerId, row.model, row.effectiveFrom))
  {
    var after := Repriced(prices + [row], attempts, row.providerId, row.model, row.effectiveFrom);
    assert (prices + [row])[..|prices|] == prices;
    forall i | 0 <= i < |after| && ByAdminPrices(after[i])
      ensures after[i].estimate == Recomputed(prices + [row], after[i])
    {
      assert ByAdminPrices(attempts[i]);
      if !Selected(attempts[i], row.providerId, row.model, row.effectiveFrom) {
        assert !Matches(row, attempts[i].providerId, attempts[i].model, attempts[i].tsStarted);
      }
    }
  }

  /** Deleting all versions and clearing the model's estimates is enough. */
  lemma ClearingIsEnough(prices: seq<PriceRow>, attempts: seq<Attempt>, providerId: nat, model: string)
    requires Consistent(prices, attempts)
    ensures Consistent(Without(prices, providerId, model), Cleared(attempts, providerId, model))
  {
    var after := Cleared(attempts, providerId, model);
    forall i | 0 <= i < |after| && ByAdminPrices(after[i])
      ensures after[i].estimate == Recomputed(Without(prices, providerId, model), after[i])
    {
      assert ByAdminPrices(attempts[i]);
      WithoutFindsRest(prices, providerId, model, attempts[i].providerId, attempts[i].model, attempts[i].tsStarted);
    }
  }

  /** The attempt has nothing to pay for, or no readable version was in force when it started. */
  predicate NothingToPrice(prices: seq<PriceRow>, a: Attempt) {
    var row := RowAt(prices, a.providerId, a.model, a.tsStarted);
    || row.None? || row.value.price.None?
    || OrZero(a.usage.promptTokens) + OrZero(a.usage.completionTokens) == 0
  }

  /** A recomputed estimate names its version exactly if there is something to price; otherwise it is empty. */
  lemma RecomputedNamesVersion(prices: seq<PriceRow>, a: Attempt)
    ensures NothingToPrice(prices, a) ==> Recomputed(prices, a) == UNPRICED
    ensures !NothingToPrice(prices, a) ==> Recomputed(prices, a).priceId.Some?
  {
    hide RowAt, TariffAt;
    var row := RowAt(prices, a.providerId, a.model, a.tsStarted);
    EveryTokenPaidOnce(if row.Some? then row.value.price else None, a.usage, a.tsStarted);
    hide EstimateCost;
  }

  /** The attempt still has the catalogue's estimate. */
  predicate StillByCatalogue(a: Attempt) {
    a.byCatalogue && a.estimate.priceId.None?
  }

  /** A new version of these prices is repriced into the attempt, although the catalogue estimated it. */
  predicate ReachedBy(a: Attempt, row: PriceRow) {
    StillByCatalogue(a) && Selected(a, row.providerId, row.model, row.effectiveFrom)
  }

  /** No attempt loses its catalogue estimate. */
  predicate CatalogueKept(before: seq<Attempt>, after: seq<Attempt>)
    requires |before| == |after|
  {
    forall i :: 0 <= i < |before| && StillByCatalogue(before[i]) ==> after[i] == before[i]
  }

  /**
   A posted price takes catalogue estimates: they all survive it if and only if those of the attempts it
   selects were empty and stay so, there being nothing to price.
   */
  lemma CatalogueSurvivesPost(prices: seq<PriceRow>, attempts: seq<Attempt>, row: PriceRow)
    ensures CatalogueKept(attempts, Repriced(prices + [row], attempts, row.providerId, row.model, row.effectiveFrom)) <==>
            forall i :: 0 <= i < |attempts| && ReachedBy(attempts[i], row) ==>
              attempts[i].estimate == UNPRICED && NothingToPrice(prices + [row], attempts[i])
  {
    hide Recomputed, NothingToPrice, Selected;
    forall i | 0 <= i < |attempts|
      ensures NothingToPrice(prices + [row], attempts[i]) ==> Recomputed(prices + [row], attempts[i]) == UNPRICED
      ensures !NothingToPrice(prices + [row], attempts[i]) ==> Recomputed(prices + [row], attempts[i]).priceId.Some?
    {
      RecomputedNamesVersion(prices + [row], attempts[i]);
    }
    var after := Repriced(prices + [row], attempts, row.providerId, row.model, row.effectiveFrom);
    assert forall i :: 0 <= i < |attempts| ==>
      after[i].estimate == if Selected(attempts[i], row.providerId, row.model, row.effectiveFrom)
                           then Recomputed(prices + [row], attempts[i]) else attempts[i].estimate;
  }

  predicate AllReadable(prices: seq<PriceRow>) {
    forall i :: 0 <= i < |prices| ==> prices[i].price.Some?
  }

  /** With readable prices only zero-token attempts with an empty estimate are spared by the price they are selected for. */
  lemma CatalogueSurvivesReadablePost(prices: seq<PriceRow>, attempts: seq<Attempt>, row: PriceRow)
    requires AllReadable(prices + [row])
    ensures CatalogueKept(attempts, Repriced(prices + [row], attempts, row.providerId, row.model, row.effectiveFrom)) <==>
            forall i :: 0 <= i < |attempts| && ReachedBy(attempts[i], row) ==>
              && attempts[i].estimate == UNPRICED
              && OrZero(attempts[i].usage.promptTokens) + OrZero(attempts[i].usage.completionTokens) == 0
  {
    CatalogueSurvivesPost(prices, attempts, row);
    forall i | 0 <= i < |attempts| && Selected(attempts[i], row.providerId, row.model, row.effectiveFrom)
      ensures RowAt(prices + [row], attempts[i].providerId, attempts[i].model, attempts[i].tsStarted).Some?
      ensures RowAt(prices + [row], attempts[i].providerId, attempts[i].model, attempts[i].tsStarted).value in prices + [row]
    {
      hide RowAt;
      RowAtIsLatest(prices + [row], attempts[i].providerId, attempts[i].model, attempts[i].tsStarted);
      assert row in prices + [row];
      assert Matches(row, attempts[i].providerId, attempts[i].model, attempts[i].tsStarted);
    }
  }

  /** The ledger after a deletion: nothing is cleared if there was no version. */
  function AfterDelete(prices: seq<PriceRow>, attempts: seq<Attempt>, providerId: nat, model: string): seq<Attempt> {
    if |Without(prices, providerId, model)| < |prices| then Cleared(attempts, providerId, model) else attempts
  }

  /** A deletion clears catalogue estimates: they survive it if and only if there was no version or they were empty. */
  lemma CatalogueSurvivesDelete(prices: seq<PriceRow>, attempts: seq<Attempt>, providerId: nat, model: string)
    ensures CatalogueKept(attempts, AfterDelete(prices, attempts, providerId, model)) <==>
            || (forall row :: row in prices ==> row.providerId != providerId || row.model != model)
            || (forall i :: 0 <= i < |attempts| && StillByCatalogue(attempts[i]) && Clearable(attempts[i], providerId, model) ==>
                  attempts[i].estimate == UNPRICED)
  {
    hide Clearable, Without;
    NothingToDelete(prices, providerId, model);
    var after := Cleared(attempts, providerId, model);
    assert forall i :: 0 <= i < |attempts| ==>
      after[i].estimate == if Clearable(attempts[i], providerId, model) then UNPRICED else attempts[i].estimate;
  }

  lemma {:induction false} NothingToDelete(prices: seq<PriceRow>, providerId: nat, model: string)
    ensures |Without(prices, providerId, model)| <= |prices|
    ensures |Without(prices, providerId, model)| == |prices| <==>
            forall row :: row in prices ==> row.providerId != providerId || row.model != model
  {
    if prices != [] {
      NothingToDelete(prices[..|prices| - 1], providerId, model);
      assert forall row :: row in prices <==> row in prices[..|prices| - 1] || row == prices[|prices| - 1];
    }
  }

  predicate Recorded(attempts: seq<Attempt>, executionId: string, attemptNo: nat) {
    exists i :: 0 <= i < |attempts| && attempts[i].executionId == executionId && attempts[i].attemptNo == attemptNo
  }

  lemma RecordedExactly(attempts: seq<Attempt>, executionId: string, attemptNo: nat)
    ensures Recorded(attempts, executionId, attemptNo) <==>
            exists b :: b in attempts && b.executionId == executionId && b.attemptNo == attemptNo
  {
    if b :| b in attempts && b.executionId == executionId && b.attemptNo == attemptNo {
      var i :| 0 <= i < |attempts| && attempts[i] == b;
    }
  }

  /** The last saved version of a model. */
  function LatestRow(prices: seq<PriceRow>, providerId: nat, model: string): Option<PriceRow> {
    if prices == [] then None
    else
      var last := prices[|prices| - 1];
      var rest := LatestRow(prices[..|prices| - 1], providerId, model);
      if last.providerId == providerId && last.model == model && (rest.None? || rest.value.id < last.id)
      then Some(last) else rest
  }

  /** The last version is the one with the greatest id. */
  lemma {:induction false} LatestRowExactly(prices: seq<PriceRow>, providerId: nat, model: string)
    ensures var r := LatestRow(prices, providerId, model);
            if r.Some? then
              && r.value in prices && r.value.providerId == providerId && r.value.model == model
              && forall row :: row in prices && row.providerId == providerId && row.model == model ==> row.id <= r.value.id
            else forall row :: row in prices ==> row.providerId != providerId || row.model != model
  {
    if prices != [] {
      LatestRowExactly(prices[..|prices| - 1], providerId, model);
      assert forall row :: row in prices ==> row in prices[..|prices| - 1] || row == prices[|prices| - 1];
    }
  }

  /** listLatest shows the model: its last version can be read. */
  predicate IsPriced(prices: seq<PriceRow>, providerId: nat, model: string) {
    var r := LatestRow(prices, providerId, model);
    r.Some? && r.value.price.Some?
  }

  /** The built-in versions added: one for each listed model that was not priced, with the next ids. */
  function SeedRows(prices: seq<PriceRow>, providerId: nat, effectiveFrom: int, models: seq<(string, ProviderPrice)>, id: nat): seq<PriceRow> {
    if models == [] then []
    else
      var front := SeedRows(prices, providerId, effectiveFrom, models[..|models| - 1], id);
      var (model, price) := models[|models| - 1];
      if IsPriced(prices, providerId, model) then front
      else front + [PriceRow(id + |front|, providerId, model, effectiveFrom, Some(price))]
  }

  /** No attempt of an execution is recorded twice. */
  predicate EachOnce(attempts: seq<Attempt>) {
    forall i, j :: 0 <= i < j < |attempts| ==>
      attempts[i].executionId != attempts[j].executionId || attempts[i].attemptNo != attempts[j].attemptNo
  }

  lemma ClearedOnce(attempts: seq<Attempt>, providerId: nat, model: string)
    requires EachOnce(attempts)
    ensures EachOnce(Cleared(attempts, providerId, model))
  {
  }

  lemma RepricedOnce(prices: seq<PriceRow>, attempts: seq<Attempt>, providerId: nat, model: string, fromTs: int)
    requires EachOnce(attempts)
    ensures EachOnce(Repriced(prices, attempts, providerId, model, fromTs))
  {
    hide Recomputed;
  }

  /** Only estimates differ. */
  predicate SameButEstimates(a: seq<Attempt>, b: seq<Attempt>) {
    |a| == |b| && forall i :: 0 <= i < |a| ==> a[i].(estimate := b[i].estimate) == b[i]
  }

  class Ledger {
    var prices: seq<PriceRow>
    var attempts: seq<Attempt>
    var nextId: nat
    var seeded: set<(string, nat)>

    ghost predicate Valid()
      reads this
    {
      && Consistent(prices, attempts) && EachOnce(attempts)
      && forall i :: 0 <= i < |prices| ==> prices[i].id < nextId
    }

    constructor ()
      ensures Valid() && prices == [] && attempts == [] && nextId == 0 && seeded == {}
    {
      prices, attempts, nextId, seeded := [], [], 0, {};
    }

    /** priceAt: the version in force for the model at a moment. */
    method PriceAt(providerId: nat, model: string, ts: int) returns (row: Option<PriceRow>)
      ensures row == RowAt(prices, providerId, model, ts)
    {
      row := None;
      var n := 0;
      while n < |prices|
        invariant n <= |prices| && row == RowAt(prices[..n], providerId, model, ts)
      {
        assert prices[..n + 1][..n] == prices[..n];
        if Matches(prices[n], providerId, model, ts) && (row.None? || Before(row.value, prices[n])) {
          row := Some(prices[n]);
        }
        n := n + 1;
      }
      assert prices[..n] == prices;
    }

    /** The estimate of one attempt at the version in force when it started. */
    method EstimateNow(a: Attempt) returns (p: Priced)
      ensures p == Recomputed(prices, a)
    {
      var version := PriceAt(a.providerId, a.model, a.tsStarted);
      var est := EstimateCost(if version.Some? then version.value.price else None, a.usage, a.tsStarted);
      p := Priced(est.usd, est.quality, if est.usd.None? || version.None? then None else Some(version.value.id));
    }

    /**
     The billing sink: an attempt is estimated at the administrator's prices, or by `catalogue` for
     OpenRouter and the sites. A second record of the same attempt is ignored.
     */
    method InsertAttempt(a: Attempt, catalogue: Estimate)
      requires Valid()
      modifies `attempts
      ensures Valid()
      ensures attempts == if exists b :: b in old(attempts) && b.executionId == a.executionId && b.attemptNo == a.attemptNo
                          then old(attempts)
                          else old(attempts) + [a.(estimate := if a.byCatalogue then ByCatalogue(catalogue) else Recomputed(prices, a))]
    {
      RecordedExactly(attempts, a.executionId, a.attemptNo);
      if Recorded(attempts, a.executionId, a.attemptNo) {
        return;
      }
      var estimate := ByCatalogue(catalogue);
      if !a.byCatalogue {
        estimate := EstimateNow(a);
      }
      attempts := attempts + [a.(estimate := estimate)];
    }

    /** repriceProviderModel: a loop over the selected rows, each set to its estimate. */
    method Reprice(providerId: nat, model: string, fromTs: int) returns (count: nat)
      modifies `attempts
      ensures attempts == Repriced(prices, old(attempts), providerId, model, fromTs)
      ensures count == |SelectedUpTo(old(attempts), providerId, model, fromTs, |old(attempts)|)|
    {
      count := 0;
      ghost var before := attempts;
      var i := 0;
      while i < |attempts|
        invariant i <= |attempts| == |before| && count == |SelectedUpTo(before, providerId, model, fromTs, i)|
        invariant forall k :: 0 <= k < |before| ==>
                    attempts[k] == if k < i then Repriced(prices, before, providerId, model, fromTs)[k] else before[k]
      {
        OneMoreSelected(before, providerId, model, fromTs, i);
        if Selected(attempts[i], providerId, model, fromTs) {
          var estimate := EstimateNow(attempts[i]);
          attempts := attempts[i := attempts[i].(estimate := estimate)];
          count := count + 1;
        }
        i := i + 1;
      }
    }

    method InsertPrice(providerId: nat, model: string, effectiveFrom: int, price: ProviderPrice) returns (id: nat)
      requires forall i :: 0 <= i < |prices| ==> prices[i].id < nextId
      modifies `prices, `nextId
      ensures prices == old(prices) + [PriceRow(id, providerId, model, effectiveFrom, Some(price))]
      ensures id == old(nextId) && nextId == id + 1
      ensures forall i :: 0 <= i < |prices| ==> prices[i].id < nextId
    {
      id := nextId;
      nextId := nextId + 1;
      prices := prices + [PriceRow(id, providerId, model, effectiveFrom, Some(price))];
    }

    /** The price POST transaction. */
    method SetPrice(providerId: nat, model: string, effectiveFrom: int, price: ProviderPrice)
      requires Valid()
      modifies `prices, `attempts, `nextId
      ensures Valid() && nextId == old(nextId) + 1
      ensures prices == old(prices) + [PriceRow(old(nextId), providerId, model, effectiveFrom, Some(price))]
      ensures attempts == Repriced(prices, old(attempts), providerId, model, effectiveFrom)
    {
      ghost var before := prices;
      var id := InsertPrice(providerId, model, effectiveFrom, price);
      RepricingIsEnough(before, attempts, prices[|prices| - 1]);
      RepricedOnce(prices, attempts, providerId, model, effectiveFrom);
      hide EachOnce;
      var _ := Reprice(providerId, model, effectiveFrom);
    }

    /** The price DELETE transaction. */
    method DeletePrices(providerId: nat, model: string) returns (deleted: nat)
      requires Valid()
      modifies `prices, `attempts
      ensures Valid() && prices == Without(old(prices), providerId, model)
      ensures deleted == |old(prices)| - |prices|
      ensures attempts == AfterDelete(old(prices), old(attempts), providerId, model)
    {
      hide Consistent, Without, Cleared, EachOnce;
      ghost var before := prices;
      var kept := DeleteModel(providerId, model);
      WithoutKeeps(prices, providerId, model);
      deleted := |prices| - |kept|;
      prices := kept;
      if deleted > 0 {
        ClearingIsEnough(before, attempts, providerId, model);
        ClearedOnce(attempts, providerId, model);
        ClearEstimates(providerId, model);
      }
    }

    /** deleteModel: the rows that stay. */
    method DeleteModel(providerId: nat, model: string) returns (kept: seq<PriceRow>)
      ensures kept == Without(prices, providerId, model)
    {
      kept := [];
      var n := 0;
      while n < |prices|
        invariant n <= |prices| && kept == Without(prices[..n], providerId, model)
      {
        assert prices[..n + 1][..n] == prices[..n];
        if prices[n].providerId != providerId || prices[n].model != model {
          kept := kept + [prices[n]];
        }
        n := n + 1;
      }
      assert prices[..n] == prices;
    }

    method ClearEstimates(providerId: nat, model: string)
      modifies `attempts
      ensures attempts == Cleared(old(attempts), providerId, model)
    {
      ghost var before := attempts;
      var i := 0;
      while i < |attempts|
        invariant i <= |attempts| == |before|
        invariant forall k :: 0 <= k < |before| ==>
                    attempts[k] == if k < i then Cleared(before, providerId, model)[k] else before[k]
      {
        if Clearable(attempts[i], providerId, model) {
          attempts := attempts[i := attempts[i].(estimate := UNPRICED)];
        }
        i := i + 1;
      }
    }

    /** The models of listLatest. */
    method PricedModels(providerId: nat) returns (models: set<string>)
      ensures forall m :: m in models <==> IsPriced(prices, providerId, m)
    {
      var latest: map<string, PriceRow> := map[];
      var n := 0;
      while n < |prices|
        invariant n <= |prices|
        invariant forall m :: LatestRow(prices[..n], providerId, m) == if m in latest then Some(latest[m]) else None
      {
        assert prices[..n + 1][..n] == prices[..n];
        var row := prices[n];
        if row.providerId == providerId && (row.model !in latest || latest[row.model].id < row.id) {
          latest := latest[row.model := row];
        }
        n := n + 1;
      }
      assert prices[..n] == prices;
      models := set m | m in latest && latest[m].price.Some?;
    }

    /**
     One built-in list for one provider: models the administrator priced are left alone, the others
     get the built-in version and are repriced; the marker makes it happen once.
     */
    method Seed(providerId: nat, seedVersion: string, effectiveFrom: int, models: seq<(string, ProviderPrice)>)
      returns (added: nat)
      requires Valid()
      modifies this
      ensures Valid() && seeded == old(seeded) + {(seedVersion, providerId)}
      ensures (seedVersion, providerId) in old(seeded) ==> added == 0 && prices == old(prices) && attempts == old(attempts)
      ensures (seedVersion, providerId) !in old(seeded) ==>
                prices == old(prices) + SeedRows(old(prices), providerId, effectiveFrom, models, old(nextId))
      ensures |prices| == |old(prices)| + added && SameButEstimates(attempts, old(attempts))
      ensures forall p, m, ts :: (p != providerId || IsPriced(old(prices), p, m)) ==>
                RowAt(prices, p, m, ts) == RowAt(old(prices), p, m, ts)
    {
      hide EachOnce, Consistent;
      added := 0;
      if (seedVersion, providerId) in seeded {
        return;
      }
      ghost var before, id := prices, nextId;
      var priced := PricedModels(providerId);
      var n := 0;
      while n < |models|
        invariant n <= |models| && Valid() && seeded == old(seeded)
        invariant prices == before + SeedRows(before, providerId, effectiveFrom, models[..n], id)
        invariant |prices| == |before| + added && nextId == id + added && SameButEstimates(attempts, old(attempts))
        invariant forall k :: |before| <= k < |prices| ==>
                    prices[k].providerId == providerId && !IsPriced(before, providerId, prices[k].model)
      {
        assert models[..n + 1][..n] == models[..n];
        if models[n].0 !in priced {
          SetPrice(providerId, models[n].0, effectiveFrom, models[n].1);
          added := added + 1;
        }
        n := n + 1;
      }
      assert models[..n] == models;
      seeded := seeded + {(seedVersion, providerId)};
      forall p, m, ts | p != providerId || IsPriced(before, p, m)
        ensures RowAt(prices, p, m, ts) == RowAt(before, p, m, ts)
      {
        OtherRowsDoNotMatter(before, prices, p, m, ts);
      }
    }
  }

  /** Later rows of other models or providers do not change what a query finds. */
  lemma {:induction false} OtherRowsDoNotMatter(before: seq<PriceRow>, prices: seq<PriceRow>, p: nat, m: string, ts: int)
    requires before <= prices
    requires forall k :: |before| <= k < |prices| ==> prices[k].providerId != p || prices[k].model != m
    ensures RowAt(prices, p, m, ts) == RowAt(before, p, m, ts)
    decreases |prices|
  {
    if |prices| > |before| {
      OtherRowsDoNotMatter(before, prices[..|prices| - 1], p, m, ts);
    } else {
      assert prices == before;
    }
  }

  /**
   It happens: an attempt at OpenRouter is recorded with its catalogue estimate of one dollar; a price of
   two dollars per million tokens set for that provider and model replaces it, and deleting the price
   again leaves the attempt without any estimate.
   */
  method PriceTakesCatalogueEstimate() returns (recorded: Priced, priced: Priced, deleted: Priced)
    ensures recorded == Priced(Some(1.0), Exact, None)
    ensures priced == Priced(Some(2.0), Exact, Some(0))
    ensures deleted == UNPRICED
  {
    hide EachOnce, Consistent, Ledger.Valid, SelectedUpTo;
    var ledger := new Ledger();
    var attempt := Attempt("e", 1, true, 7, "m", 1000, Usage(Some(1_000_000), None, None, None), false, true, UNPRICED);
    ledger.InsertAttempt(attempt, Estimate(Some(1.0), Exact));
    recorded := ledger.attempts[0].estimate;
    var price := ProviderPrice(Tariff(2.0, None, 4.0), None, [], false);
    assert ledger.nextId == 0;
    ledger.SetPrice(7, "m", 0, price);
    OnlyRow(PriceRow(0, 7, "m", 0, Some(price)), attempt);
    priced := ledger.attempts[0].estimate;
    var _ := ledger.DeletePrices(7, "m");
    NothingToDelete([PriceRow(0, 7, "m", 0, Some(price))], 7, "m");
    deleted := ledger.attempts[0].estimate;
  }

  lemma OnlyRow(row: PriceRow, a: Attempt)
    requires Matches(row, a.providerId, a.model, a.tsStarted)
    ensures RowAt([row], a.providerId, a.model, a.tsStarted) == Some(row)
  {
    assert [row][..0] == [];
  }
}
