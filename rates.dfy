/** Quotes, the rate table, and how one hop of a path is converted. */
module Rates {

  import opened Arith

  /** A currency code such as "USD". */
  type Currency = string

  /** An ordered pair of currencies (base, quote). The table's string key "base/quote" is this pair. */
  type Pair = (Currency, Currency)

  /** One two-sided quote as the table stores it: bid, ask and the relative spread derived from them. */
  datatype Quote = Quote(bid: real, ask: real, spread: real)

  /** The snapshot of quotes, keyed by the direction in which each pair was observed. */
  type RateTable = map<Pair, Quote>

  datatype Option<T> = None | Some(value: T)

  /** The outcome of a computation that reads the table: a value, the KeyError of a failed
      lookup carrying the key that was not found, or the ZeroDivisionError of dividing by a
      zero initial amount. */
  datatype Result<T> = Ok(value: T) | KeyError(key: Pair) | ZeroDivision

  /** Every stored quote has a positive bid and a positive ask (market quotes always do). */
  predicate PositiveQuotes(rates: RateTable)
  {
    forall k :: k in rates ==> rates[k].bid > 0.0 && rates[k].ask > 0.0
  }

  /** A per-hop fee fraction: non-negative and less than the whole amount. */
  predicate ValidFee(fee: real)
  {
    0.0 <= fee < 1.0
  }

  /** The relative spread: the bid/ask gap divided by the midpoint of the two. */
  function Spread(bid: real, ask: real): (r: real)
    requires bid + ask != 0.0
    ensures 0.0 < bid && 0.0 < ask ==> -2.0 < r < 2.0
    ensures 0.0 < bid && 0.0 < ask ==> (r > 0.0 <==> ask > bid) && (r == 0.0 <==> ask == bid)
  {
    var mid := (ask + bid) / 2.0;
    assert 0.0 < bid && 0.0 < ask ==> -2.0 < (ask - bid) / mid < 2.0 by {
      if 0.0 < bid && 0.0 < ask { SpreadBounds(bid, ask, mid); }
    }
    (ask - bid) / mid
  }

  lemma SpreadBounds(bid: real, ask: real, mid: real)
    requires 0.0 < bid && 0.0 < ask && mid == (ask + bid) / 2.0
    ensures -2.0 < (ask - bid) / mid < 2.0
  {
    var r := (ask - bid) / mid;
    assert r * mid == ask - bid;
    assert (2.0 - r) * mid == 2.0 * bid;
    assert (2.0 + r) * mid == 2.0 * ask;
    PositiveFactor(2.0 - r, mid);
    PositiveFactor(2.0 + r, mid);
  }

  /** The entry recorded for one fetched bid and ask: nothing when either side is zero (the
      truthiness test on the fetched values) or when the midpoint is zero (the division fails
      and the error handler skips the pair). */
  function QuoteOf(bid: real, ask: real): (r: Option<Quote>)
    ensures r.Some? <==> bid != 0.0 && ask != 0.0 && bid + ask != 0.0
    ensures r.Some? ==> r.value.bid == bid && r.value.ask == ask
    ensures r.Some? && 0.0 < bid <= ask ==> 0.0 <= r.value.spread < 2.0
    ensures r.Some? && 0.0 < bid && 0.0 < ask ==>
      (r.value.spread > 0.0 <==> ask > bid) && (r.value.spread == 0.0 <==> ask == bid)
  {
    if bid != 0.0 && ask != 0.0 && bid + ask != 0.0 then Some(Quote(bid, ask, Spread(bid, ask)))
    else None
  }

  /** The pair can be traded in the direction from -> to: quoted directly or in reverse. */
  predicate Quoted(rates: RateTable, from: Currency, to: Currency)
  {
    (from, to) in rates || (to, from) in rates
  }

  /** How one hop is carried out: sell at the bid of the direct quote, or buy back at the ask
      of the reverse quote. */
  datatype Conversion = SellAtBid(bid: real) | BuyAtAsk(ask: real)

  predicate PositiveConversion(c: Conversion)
  {
    match c
    case SellAtBid(b) => b > 0.0
    case BuyAtAsk(a) => a > 0.0
  }

  /** The conversion of the hop from -> to. The direct key is looked up first; only in its
      absence is the reverse key read, and when that is missing too the lookup raises a
      KeyError on the reverse key (to, from). */
  function Resolve(rates: RateTable, from: Currency, to: Currency): (r: Result<Conversion>)
    ensures r.Ok? <==> Quoted(rates, from, to)
    ensures !r.Ok? ==> r == KeyError((to, from))
    ensures PositiveQuotes(rates) && r.Ok? ==> PositiveConversion(r.value)
  {
    if (from, to) in rates then Ok(SellAtBid(rates[(from, to)].bid))
    else if (to, from) in rates then Ok(BuyAtAsk(rates[(to, from)].ask))
    else KeyError((to, from))
  }

  /** The direct quote decides whenever it is present, whatever the reverse key holds; the
      reverse quote is used exactly when the direct key is absent. */
  lemma ResolvePrecedence(rates: RateTable, from: Currency, to: Currency)
    ensures (from, to) in rates ==> Resolve(rates, from, to) == Ok(SellAtBid(rates[(from, to)].bid))
    ensures Resolve(rates, from, to).Ok? && Resolve(rates, from, to).value.BuyAtAsk? <==> (from, to) !in rates && (to, from) in rates
    ensures (from, to) !in rates && (to, from) in rates ==> Resolve(rates, from, to).value.ask == rates[(to, from)].ask
  {
  }

  /** The factor by which a conversion multiplies the amount, net of the fee: selling keeps
      the bid less the fee; buying back divides by the ask plus the fee. */
  function Factor(c: Conversion, fee: real): real
    requires PositiveConversion(c) && ValidFee(fee)
  {
    match c
    case SellAtBid(b) => b * (1.0 - fee)
    case BuyAtAsk(a) =>
      assert a * (1.0 + fee) > 0.0 by { PositiveProduct(a, 1.0 + fee); }
      1.0 / (a * (1.0 + fee))
  }

  /** The raw rate of a conversion with no fee: the bid, or the reciprocal of the ask. */
  function RawRate(c: Conversion): real
    requires PositiveConversion(c)
  {
    match c
    case SellAtBid(b) => b
    case BuyAtAsk(a) => 1.0 / a
  }

  /** With no fee a conversion is exactly its raw rate, and a fee never raises it. */
  lemma FactorAgainstRawRate(c: Conversion, fee: real)
    requires PositiveConversion(c) && ValidFee(fee)
    ensures Factor(c, 0.0) == RawRate(c)
    ensures Factor(c, fee) <= RawRate(c)
  {
    FactorFeeMonotone(c, 0.0, fee);
  }

  /** A larger fee never gives a larger factor: both branches shrink the amount as it grows. */
  lemma FactorFeeMonotone(c: Conversion, f1: real, f2: real)
    requires PositiveConversion(c) && ValidFee(f1) && ValidFee(f2) && f1 <= f2
    ensures Factor(c, f1) >= Factor(c, f2)
  {
    if c.SellAtBid? {
      MulMonotone(c.bid, 1.0 - f1, 1.0 - f2);
    } else {
      MulMonotone(c.ask, 1.0 + f2, 1.0 + f1);
      PositiveProduct(c.ask, 1.0 + f1);
      ReciprocalAntitone(c.ask * (1.0 + f1), c.ask * (1.0 + f2));
    }
  }

  /** Every conversion keeps a positive amount positive. */
  lemma FactorPositive(c: Conversion, fee: real)
    requires PositiveConversion(c) && ValidFee(fee)
    ensures Factor(c, fee) > 0.0
  {
    if c.SellAtBid? {
      PositiveProduct(c.bid, 1.0 - fee);
    } else {
      PositiveProduct(c.ask, 1.0 + fee);
      PositiveReciprocal(c.ask * (1.0 + fee));
    }
  }
}
