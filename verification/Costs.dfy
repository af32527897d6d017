/** The energy price caches: day-ahead prices per region, exchange rates, and the conversion to EUR/MWh. */
module Costs {
  import opened Quantities
  import opened Ledger
  import opened Ranking

  /** A price vector as fetched: values in a unit such as "USD/MWh". */
  datatype Quote = Quote(values: seq<real>, unit: string)

  datatype Key = Key(namespace: string, name: string)

  /** The cost part of a stored RegionForecast, and its carbon part. */
  datatype Forecast = Forecast(cost: Quote, costUpdated: int, carbon: seq<int>, carbonUpdated: int)

  /** Stored exchange rates; an empty map counts as none. */
  datatype Exchanges = Exchanges(rates: map<string, real>, updated: int)

  /** What the price service and the store answer while one cluster is refreshed. */
  datatype Answers = Answers(
    prices: Option<Quote>, priceStored: bool, ratesFetched: bool, ratesStored: bool, conversionStored: bool)
  {
    /** The price service never answers with an empty vector. */
    predicate WellFormed() {
      prices.Some? ==> prices.value.values != []
    }

    /** Both services answer and the store keeps it; keeping the conversion is not needed. */
    predicate Succeed(market: map<string, real>) {
      prices.Some? && priceStored && ratesFetched && ratesStored && Convertible(prices.value.unit, market)
    }
  }

  const TARGET_UNIT := "EUR/MWh"
  const HOUR: int := 60 * 60
  const DAY: int := 24 * HOUR
  /** The zero time of a forecast whose costs were never written. */
  const NEVER: int := 0

  function Lower(s: string): string {
    seq(|s|, i requires 0 <= i < |s| => if 'A' <= s[i] <= 'Z' then s[i] - 'A' + 'a' else s[i])
  }

  /** The part of a unit before the first slash. */
  function CurrencyOf(unit: string): string {
    if |unit| == 0 || unit[0] == '/' then "" else [unit[0]] + CurrencyOf(unit[1..])
  }

  function Divided(values: seq<real>, rate: real): seq<real>
    requires rate > 0.0
  {
    seq(|values|, i requires 0 <= i < |values| => values[i] / rate)
  }

  predicate Convertible(unit: string, rates: map<string, real>) {
    unit == TARGET_UNIT || (CurrencyOf(unit) in rates && rates[CurrencyOf(unit)] > 0.0)
  }

  /** The prices in EUR/MWh that a quote stands for under the market's rates. */
  function Euros(q: Quote, rates: map<string, real>): Option<seq<real>> {
    if q.unit == TARGET_UNIT then Some(q.values)
    else if Convertible(q.unit, rates) then Some(Divided(q.values, rates[CurrencyOf(q.unit)]))
    else None
  }

  /** A converted quote stands for the same prices, and converting it once more changes nothing. */
  lemma ConversionKeepsThePrices(q: Quote, rates: map<string, real>)
    requires Euros(q, rates).Some?
    ensures Euros(Quote(Euros(q, rates).value, TARGET_UNIT), rates) == Euros(q, rates)
    ensures |Euros(q, rates).value| == |q.values|
  {
  }

  /** A converted price times the rate of its currency is the price that was quoted. */
  lemma PricesAreDividedByTheirRate(q: Quote, rates: map<string, real>, i: nat)
    requires Euros(q, rates).Some? && i < |q.values|
    ensures q.unit == "EUR/MWh" ==> Euros(q, rates).value[i] == q.values[i]
    ensures q.unit != "EUR/MWh" ==>
              && CurrencyOf(q.unit) in rates && rates[CurrencyOf(q.unit)] > 0.0
              && Euros(q, rates).value[i] * rates[CurrencyOf(q.unit)] == q.values[i]
  {
  }

  /** The currency of a unit is what precedes the slash. */
  lemma {:induction false} CurrencyPrecedesTheSlash(code: string, rest: string)
    requires '/' !in code
    ensures CurrencyOf(code + "/" + rest) == code && CurrencyOf(code) == code
  {
    if code != "" {
      CurrencyPrecedesTheSlash(code[1..], rest);
      assert (code + "/" + rest)[1..] == code[1..] + "/" + rest;
    }
  }

  /** The same letter, whatever its case. */
  predicate SameLetter(a: char, b: char) {
    a == b || ('A' <= a <= 'Z' && b as int == a as int + 32) || ('A' <= b <= 'Z' && a as int == b as int + 32)
  }

  /** Regions share their prices exactly if they differ in case only. */
  lemma RegionsIgnoreCase(s: string, t: string)
    ensures Lower(s) == Lower(t) <==> |s| == |t| && forall i :: 0 <= i < |s| ==> SameLetter(s[i], t[i])
  {
    if Lower(s) == Lower(t) {
      forall i | 0 <= i < |s|
        ensures SameLetter(s[i], t[i])
      {
        assert Lower(s)[i] == Lower(t)[i];
      }
    }
  }

  /** Cached prices are used for an hour, cached rates for a day. */
  lemma CachesLast(forecasts: map<Key, Forecast>, exchanges: map<string, Exchanges>, key: Key, now: int)
    requires key in forecasts && forecasts[key].cost.values != []
    requires key.namespace in exchanges && exchanges[key.namespace].rates != map[]
    ensures NeedsPrices(forecasts, key, now) <==> now > forecasts[key].costUpdated + 3600
    ensures NeedsRates(exchanges, key.namespace, now) <==> now > exchanges[key.namespace].updated + 86400
  {
  }

  predicate HasRegion(c: Cluster) {
    c.location.Some? && c.location.value.region != ""
  }

  function KeyOf(c: Cluster): Key
    requires HasRegion(c)
  {
    Key(c.namespace, Lower(c.location.value.region))
  }

  /** What is stored under a key; an object is created without costs and carbon values. */
  function Known(forecasts: map<Key, Forecast>, key: Key): Forecast {
    if key in forecasts then forecasts[key] else Forecast(Quote([], ""), NEVER, [], NEVER)
  }

  /** No other forecast changes, and of this one the costs only. */
  ghost predicate KeepsCarbon(was: map<Key, Forecast>, forecasts: map<Key, Forecast>, key: Key) {
    && (forall k <- was :: k in forecasts && (k != key ==> forecasts[k] == was[k]))
    && (forall k <- forecasts :: k in was || k == key)
    && (key in forecasts ==>
          && forecasts[key].carbon == Known(was, key).carbon
          && forecasts[key].carbonUpdated == Known(was, key).carbonUpdated)
  }

  lemma KeepsCarbonTwice(was: map<Key, Forecast>, between: map<Key, Forecast>, forecasts: map<Key, Forecast>, key: Key)
    requires KeepsCarbon(was, between, key) && KeepsCarbon(between, forecasts, key)
    ensures KeepsCarbon(was, forecasts, key)
  {
  }

  predicate NeedsPrices(forecasts: map<Key, Forecast>, key: Key, now: int) {
    key !in forecasts || now - forecasts[key].costUpdated > HOUR || forecasts[key].cost.values == []
  }

  predicate NeedsRates(exchanges: map<string, Exchanges>, namespace: string, now: int) {
    namespace !in exchanges || now - exchanges[namespace].updated > DAY || exchanges[namespace].rates == map[]
  }

  /** When a cluster gets a price: prices are cached or can be fetched and kept, and so are rates if they are needed. */
  predicate GetsPrice(forecasts: map<Key, Forecast>, exchanges: map<string, Exchanges>, market: map<string, real>,
                      c: Cluster, answers: Answers, now: int)
  {
    HasRegion(c)
    && (NeedsPrices(forecasts, KeyOf(c), now) ==> answers.prices.Some? && answers.priceStored)
    && var unit := if NeedsPrices(forecasts, KeyOf(c), now) then answers.prices.value.unit
                   else forecasts[KeyOf(c)].cost.unit;
    Convertible(unit, market)
    && (unit != TARGET_UNIT && NeedsRates(exchanges, c.namespace, now) ==> answers.ratesFetched && answers.ratesStored)
  }

  class CostCache {
    var forecasts: map<Key, Forecast>
    var exchanges: map<string, Exchanges>
    /** The fixed rates that the currency service answers. */
    const market: map<string, real>
    /** For each forecast, the quote that was fetched and stored last. */
    ghost var fetched: map<Key, Quote>

    /** Every non-empty cached vector stands for the prices fetched last, in whatever unit it is stored. */
    ghost predicate Valid()
      reads this
    {
      (forall n <- exchanges :: exchanges[n].rates == market)
      && (forall k <- forecasts :: forecasts[k].cost.values != [] ==>
                               k in fetched && fetched[k].values != []
                               && Euros(forecasts[k].cost, market) == Euros(fetched[k], market))
    }

    constructor (market: map<string, real>)
      ensures Valid() && this.market == market && forecasts == map[] && exchanges == map[] && fetched == map[]
    {
      this.market, forecasts, exchanges, fetched := market, map[], map[], map[];
    }

    /** Fetches and stores prices if the cache has none that are fresh; yields the forecast to work with. */
    method FreshForecast(key: Key, answers: Answers, now: int) returns (forecast: Option<Forecast>)
      requires Valid() && answers.WellFormed()
      modifies this`forecasts, this`fetched
      ensures Valid()
      ensures forecast.Some?
              <==> (NeedsPrices(old(forecasts), key, now) ==> answers.prices.Some? && answers.priceStored)
      ensures forecast.None? ==> forecasts == old(forecasts) && fetched == old(fetched)
      ensures KeepsCarbon(old(forecasts), forecasts, key)
      ensures forecast.Some? ==>
                && forecasts == old(forecasts)[key := forecast.value] && !NeedsPrices(forecasts, key, now)
                && (if NeedsPrices(old(forecasts), key, now) then
                      && fetched == old(fetched)[key := answers.prices.value]
                      && forecast.value
                         == Known(old(forecasts), key).(cost := answers.prices.value, costUpdated := now)
                    else fetched == old(fetched) && forecast.value == old(forecasts)[key])
    {
      var needsFetch := false;
      if key !in forecasts {
        needsFetch := true;
      } else if now - forecasts[key].costUpdated > HOUR || |forecasts[key].cost.values| == 0 {
        needsFetch := true;
      }
      if needsFetch {
        if answers.prices.None? {
          return None;
        }
        var latest := Known(forecasts, key);
        latest := latest.(cost := answers.prices.value, costUpdated := now);
        if !answers.priceStored {
          return None;
        }
        forecasts := forecasts[key := latest];
        fetched := fetched[key := answers.prices.value];
      }
      forecast := Some(forecasts[key]);
    }

    /** The rates to convert with, fetched and stored if the cached ones are missing or a day old. */
    method FreshRates(namespace: string, answers: Answers, now: int) returns (rates: Option<map<string, real>>)
      requires Valid()
      modifies this`exchanges
      ensures Valid()
      ensures rates.Some? <==>
              (NeedsRates(old(exchanges), namespace, now) ==> answers.ratesFetched && answers.ratesStored)
      ensures rates.Some? ==> rates.value == market
      ensures exchanges == if rates.Some? && NeedsRates(old(exchanges), namespace, now)
                           then old(exchanges)[namespace := Exchanges(market, now)] else old(exchanges)
    {
      if namespace !in exchanges || now - exchanges[namespace].updated > DAY || exchanges[namespace].rates == map[] {
        if !answers.ratesFetched || !answers.ratesStored {
          return None;
        }
        exchanges := exchanges[namespace := Exchanges(market, now)];
      }
      rates := Some(exchanges[namespace].rates);
    }

    /** Converts a forecast that the cache holds to EUR/MWh; whether the store accepts the result does not matter. */
    method Normalise(key: Key, forecast: Forecast, answers: Answers, now: int) returns (euros: Option<seq<real>>)
      requires Valid() && key in forecasts && forecasts[key] == forecast && forecast.cost.values != []
      modifies this`forecasts, this`exchanges
      ensures Valid()
      ensures euros.Some? <==>
                && Convertible(forecast.cost.unit, market)
                && (forecast.cost.unit != TARGET_UNIT && NeedsRates(old(exchanges), key.namespace, now) ==>
                      answers.ratesFetched && answers.ratesStored)
      ensures euros.Some? ==> euros == Euros(forecast.cost, market) && |euros.value| == |forecast.cost.values|
      ensures KeepsCarbon(old(forecasts), forecasts, key)
      ensures forecasts == if euros.Some? && forecast.cost.unit != TARGET_UNIT && answers.conversionStored
                           then old(forecasts)[key := forecast.(cost := Quote(euros.value, TARGET_UNIT))]
                           else old(forecasts)
    {
      if forecast.cost.unit == TARGET_UNIT {
        return Some(forecast.cost.values);
      }
      var code := CurrencyOf(forecast.cost.unit);
      var rates := FreshRates(key.namespace, answers, now);
      if rates.None? {
        return None;
      }
      if code !in rates.value || rates.value[code] <= 0.0 {
        return None;
      }
      ConversionKeepsThePrices(forecast.cost, market);
      euros := Some(Divided(forecast.cost.values, rates.value[code]));
      if answers.conversionStored {
        forecasts := forecasts[key := forecast.(cost := Quote(euros.value, TARGET_UNIT))];
      }
    }

    /** All cached prices are in a unit that the market's rates convert. */
    ghost predicate AllConvertible()
      reads this
    {
      forall k <- forecasts :: forecasts[k].cost.values != [] ==> Convertible(forecasts[k].cost.unit, market)
    }

    /** Refreshes one cluster: yields its current price in EUR/MWh, if it gets one. */
    method RefreshCost(c: Cluster, answers: Answers, now: int) returns (price: Option<real>)
      requires Valid() && answers.WellFormed()
      modifies this
      ensures Valid()
      ensures price.Some? <==> GetsPrice(old(forecasts), old(exchanges), market, c, answers, now)
      ensures price.Some? ==> Quoted(c, now) && price.value == PriceOf(c, now)
      ensures forall k <- old(fetched) :: !NeedsPrices(old(forecasts), k, now) ==>
                                       !NeedsPrices(forecasts, k, now) && k in fetched && fetched[k] == old(fetched)[k]
      ensures old(AllConvertible()) && answers.Succeed(market) ==> AllConvertible() && (HasRegion(c) ==> price.Some?)
      ensures if HasRegion(c) then KeepsCarbon(old(forecasts), forecasts, KeyOf(c)) else forecasts == old(forecasts)
    {
      hide Known, KeepsCarbon, Lower;
      if c.location.None? || c.location.value.region == "" {
        return None;
      }
      var key := Key(c.namespace, Lower(c.location.value.region));
      var found := FreshForecast(key, answers, now);
      if found.None? {
        return None;
      }
      hide Euros, Convertible;
      ghost var between := forecasts;
      var euros := Normalise(key, found.value, answers, now);
      KeepsCarbonTwice(old(forecasts), between, forecasts, key);
      if euros.None? {
        return None;
      }
      price := Some(euros.value[0]);
    }

    /** The cache has fresh prices for the cluster's region, and they stand for an amount in EUR/MWh. */
    ghost predicate Quoted(c: Cluster, now: int)
      reads this
    {
      HasRegion(c) && KeyOf(c) in fetched && !NeedsPrices(forecasts, KeyOf(c), now)
      && Euros(fetched[KeyOf(c)], market).Some? && Euros(fetched[KeyOf(c)], market).value != []
    }

    /** The first entry of the vector fetched last for the cluster's region, in EUR/MWh. */
    ghost function PriceOf(c: Cluster, now: int): (price: real)
      requires Quoted(c, now)
      reads this
      ensures var quote := fetched[KeyOf(c)];
              && quote.values != []
              && if quote.unit == "EUR/MWh" then price == quote.values[0]
                 else CurrencyOf(quote.unit) in market && price * market[CurrencyOf(quote.unit)] == quote.values[0]
    {
      PricesAreDividedByTheirRate(fetched[KeyOf(c)], market, 0);
      Euros(fetched[KeyOf(c)], market).value[0]
    }

    /** Given the price of its region. */
    ghost predicate Priced(before: Cluster, after: Cluster, now: int)
      reads this
    {
      Quoted(before, now)
      && after == before.(spec := before.spec.(cost := after.spec.cost)) && after.spec.cost.Some?
      && after.spec.cost.value.energyCost == PriceOf(before, now) && after.spec.cost.value.currency == "EUR"
      && (after.spec.cost.value.renewable <==> before.spec.cost.Some? && before.spec.cost.value.renewable)
    }

    /** The pass over all clusters before a ranking; it writes the prices into the list only. */
    method UpdateCosts(list: array<Cluster>, answers: seq<Answers>, now: int)
      requires Valid() && |answers| == list.Length && forall i :: 0 <= i < |answers| ==> answers[i].WellFormed()
      modifies this, list
      ensures Valid()
      ensures forall i :: 0 <= i < list.Length ==> list[i] == old(list[i]) || Priced(old(list[i]), list[i], now)
      ensures old(AllConvertible()) && (forall i :: 0 <= i < |answers| ==> answers[i].Succeed(market)) ==>
                forall i :: 0 <= i < list.Length && HasRegion(old(list[i])) ==> Priced(old(list[i]), list[i], now)
    {
      hide NeedsPrices, Euros, GetsPrice, Valid, AllConvertible, Answers.Succeed;
      for i := 0 to list.Length
        invariant Valid()
        invariant forall j :: i <= j < list.Length ==> list[j] == old(list[j])
        invariant forall j :: 0 <= j < i ==> list[j] == old(list[j]) || Priced(old(list[j]), list[j], now)
        invariant old(AllConvertible()) && (forall j :: 0 <= j < |answers| ==> answers[j].Succeed(market)) ==>
                    && AllConvertible()
                    && forall j :: 0 <= j < i && HasRegion(old(list[j])) ==> Priced(old(list[j]), list[j], now)
      {
        var price := RefreshCost(list[i], answers[i], now);
        if price.Some? {
          if list[i].spec.cost.None? {
            list[i] := list[i].(spec := list[i].spec.(cost := Some(CostInfo(false, price.value, "EUR"))));
          } else {
            var cost := list[i].spec.cost.value.(energyCost := price.value);
            list[i] := list[i].(spec := list[i].spec.(cost := Some(cost)));
            list[i] := list[i].(spec := list[i].spec.(cost := Some(list[i].spec.cost.value.(currency := "EUR"))));
          }
        }
      }
    }

    /** The eco scoring writes carbon values into the same objects and leaves the costs alone. */
    method WriteCarbon(key: Key, carbon: seq<int>, now: int, stored: bool)
      requires Valid()
      modifies this`forecasts
      ensures Valid()
      ensures forall k <- old(forecasts) :: k in forecasts && forecasts[k].cost == old(forecasts)[k].cost
      ensures forecasts == if stored
                           then old(forecasts)[key := Known(old(forecasts), key)
                                                      .(carbon := carbon, carbonUpdated := now)]
                           else old(forecasts)
    {
      var latest := Known(forecasts, key);
      if stored {
        forecasts := forecasts[key := latest.(carbon := carbon, carbonUpdated := now)];
      }
    }
  }
}
