/** The profit of one closed path: its hops' factors compounded from an initial amount. */
module Profit {

  import opened Arith
  import opened Rates

  /** The number of hops of a path: one fewer than its length, none for an empty path. */
  function HopCount(path: seq<Currency>): nat
  {
    if |path| == 0 then 0 else |path| - 1
  }

  /** Hop j of the path, path[j] -> path[j + 1], has a quote in one direction or the other. */
  predicate HopQuoted(rates: RateTable, path: seq<Currency>, j: nat)
    requires j < HopCount(path)
  {
    Quoted(rates, path[j], path[j + 1])
  }

  /** Each of the first k hops of the path is quoted. */
  predicate HopsQuoted(rates: RateTable, path: seq<Currency>, k: nat)
    requires k <= HopCount(path)
  {
    forall j :: 0 <= j < k ==> HopQuoted(rates, path, j)
  }

  /** The index of the first unquoted hop among the first k, or k when they are all quoted. */
  function FirstUnquoted(rates: RateTable, path: seq<Currency>, k: nat): (j: nat)
    requires k <= HopCount(path)
    ensures j <= k && HopsQuoted(rates, path, j)
    ensures j < k ==> !HopQuoted(rates, path, j)
    ensures j == k <==> HopsQuoted(rates, path, k)
  {
    if k == 0 then 0
    else
      var j := FirstUnquoted(rates, path, k - 1);
      if j < k - 1 || !HopQuoted(rates, path, k - 1) then j else k
  }

  /** The conversion of hop j of the path. */
  function ConversionAt(rates: RateTable, path: seq<Currency>, j: nat): Result<Conversion>
    requires j < HopCount(path)
  {
    Resolve(rates, path[j], path[j + 1])
  }

  predicate AllPositive(cs: seq<Conversion>)
  {
    forall j :: 0 <= j < |cs| ==> PositiveConversion(cs[j])
  }

  /** The conversions of the first k hops of the path, in order, or the KeyError of the first
      hop that is not quoted. */
  function Conversions(rates: RateTable, path: seq<Currency>, k: nat): (r: Result<seq<Conversion>>)
    requires k <= HopCount(path)
    ensures r.Ok? ==> |r.value| == k
    ensures r.Ok? && PositiveQuotes(rates) ==> AllPositive(r.value)
    decreases k
  {
    if k == 0 then Ok([])
    else
      var r := Conversions(rates, path, k - 1);
      if !r.Ok? then r
      else
        var c := ConversionAt(rates, path, k - 1);
        if !c.Ok? then KeyError(c.key)
        else Ok(r.value + [c.value])
  }

  /** The list fails exactly when one of the first k hops is unquoted, and then with the
      KeyError of the first such hop; otherwise it holds the conversion of each hop. */
  lemma {:induction false} ConversionsOutcome(rates: RateTable, path: seq<Currency>, k: nat)
    requires k <= HopCount(path)
    ensures var r := Conversions(rates, path, k);
      (r.Ok? <==> HopsQuoted(rates, path, k)) &&
      (r.Ok? ==> forall j :: 0 <= j < k ==> ConversionAt(rates, path, j) == Ok(r.value[j])) &&
      (!r.Ok? ==> var j := FirstUnquoted(rates, path, k); j < k && r == KeyError((path[j + 1], path[j])))
    decreases k
  {
    if k > 0 {
      ConversionsOutcome(rates, path, k - 1);
      var r := Conversions(rates, path, k - 1);
      if r.Ok? && ConversionAt(rates, path, k - 1).Ok? {
        var cs := Conversions(rates, path, k).value;
        assert forall j :: 0 <= j < k - 1 ==> cs[j] == r.value[j];
        assert HopQuoted(rates, path, k - 1);
      } else if r.Ok? {
        assert !HopQuoted(rates, path, k - 1);
      }
    }
  }

  /** The amount one unit becomes after the conversions, applied in order. */
  function Multiplier(cs: seq<Conversion>, fee: real): real
    requires AllPositive(cs) && ValidFee(fee)
  {
    if cs == [] then 1.0
    else
      var n := |cs| - 1;
      Multiplier(cs[..n], fee) * Factor(cs[n], fee)
  }

  /** The profit fraction of the whole path: its multiplier less one. It is defined exactly
      when every hop is quoted, and otherwise fails with the KeyError of the first hop that
      is not. */
  function PathProfit(rates: RateTable, path: seq<Currency>, fee: real): Result<real>
    requires PositiveQuotes(rates) && ValidFee(fee)
  {
    match Conversions(rates, path, HopCount(path))
    case Ok(cs) => Ok(Multiplier(cs, fee) - 1.0)
    case KeyError(key) => KeyError(key)
    case ZeroDivision => ZeroDivision
  }

  /** The profit is defined exactly when every hop is quoted, and otherwise fails with the
      KeyError of the first hop that is not. */
  lemma PathProfitOutcome(rates: RateTable, path: seq<Currency>, fee: real)
    requires PositiveQuotes(rates) && ValidFee(fee)
    ensures var r := PathProfit(rates, path, fee);
      (r.Ok? <==> HopsQuoted(rates, path, HopCount(path))) &&
      (!r.Ok? ==> var j := FirstUnquoted(rates, path, HopCount(path));
        j < HopCount(path) && r == KeyError((path[j + 1], path[j])))
  {
    ConversionsOutcome(rates, path, HopCount(path));
  }

  /** A quoted hop extends the conversion list by its own conversion. */
  lemma ExtendConversions(rates: RateTable, path: seq<Currency>, i: nat, cs: seq<Conversion>, c: Conversion)
    requires i < HopCount(path)
    requires Conversions(rates, path, i) == Ok(cs) && ConversionAt(rates, path, i) == Ok(c)
    ensures Conversions(rates, path, i + 1) == Ok(cs + [c])
  {
  }

  /** Once a hop has failed, every longer prefix fails with the same KeyError. */
  lemma {:induction false} FailurePersists(rates: RateTable, path: seq<Currency>, k: nat, n: nat)
    requires k <= n <= HopCount(path)
    requires Conversions(rates, path, k).KeyError?
    ensures Conversions(rates, path, n) == Conversions(rates, path, k)
    decreases n - k
  {
    if k < n {
      FailurePersists(rates, path, k + 1, n);
    }
  }

  /** One conversion applied to an amount, as the `calculate_arbitrage` loop of main.py writes it: multiplied by
      the bid net of the fee, or divided by the ask grossed up by the fee. */
  function Apply(amount: real, c: Conversion, fee: real): real
    requires PositiveConversion(c) && ValidFee(fee)
  {
    match c
    case SellAtBid(b) => amount * (b * (1.0 - fee))
    case BuyAtAsk(a) =>
      PositiveProduct(a, 1.0 + fee);
      amount / (a * (1.0 + fee))
  }

  /** The amount after applying the conversions in order to a starting amount. */
  function Compound(amount: real, cs: seq<Conversion>, fee: real): real
    requires AllPositive(cs) && ValidFee(fee)
  {
    if cs == [] then amount
    else
      var n := |cs| - 1;
      Apply(Compound(amount, cs[..n], fee), cs[n], fee)
  }

  /** Applying a conversion scales the amount by the conversion's factor. */
  lemma ApplyScales(amount: real, c: Conversion, fee: real)
    requires PositiveConversion(c) && ValidFee(fee)
    ensures Apply(amount, c, fee) == amount * Factor(c, fee)
  {
    match c
    case SellAtBid(b) =>
    case BuyAtAsk(a) =>
      PositiveProduct(a, 1.0 + fee);
      DivideRescale(amount, amount, 1.0, a * (1.0 + fee));
  }

  /** The compounded amount is the starting amount times the multiplier, so the relative
      outcome of a path does not depend on the amount it starts from. */
  lemma {:induction false} CompoundScales(amount: real, cs: seq<Conversion>, fee: real)
    requires AllPositive(cs) && ValidFee(fee)
    ensures Compound(amount, cs, fee) == amount * Multiplier(cs, fee)
  {
    if cs != [] {
      var n := |cs| - 1;
      assert AllPositive(cs[..n]);
      CompoundScales(amount, cs[..n], fee);
      ApplyScales(Compound(amount, cs[..n], fee), cs[n], fee);
      Rescale(Compound(amount, cs[..n], fee), amount, Multiplier(cs[..n], fee), Factor(cs[n], fee), Multiplier(cs, fee));
    }
  }

  /** The state of main.py's `calculate_arbitrage` loop after its first i hops: they were all quoted, cs lists
      their conversions, and amount is the initial amount with those conversions applied. */
  predicate Priced(rates: RateTable, path: seq<Currency>, fee: real, initialAmount: real, i: nat, cs: seq<Conversion>, amount: real)
    requires ValidFee(fee)
  {
    i <= HopCount(path) && Conversions(rates, path, i) == Ok(cs) && AllPositive(cs) &&
    amount == Compound(initialAmount, cs, fee)
  }

  /** A directly quoted hop sells at the bid: the amount is multiplied by the net bid. */
  lemma SellStep(rates: RateTable, path: seq<Currency>, fee: real, initialAmount: real, i: nat, cs: seq<Conversion>, amount: real,
                 next: seq<Conversion>, value: real)
    requires PositiveQuotes(rates) && ValidFee(fee)
    requires Priced(rates, path, fee, initialAmount, i, cs, amount)
    requires i < HopCount(path) && (path[i], path[i + 1]) in rates
    requires var bid := rates[(path[i], path[i + 1])].bid;
      next == cs + [SellAtBid(bid)] && value == amount * (bid * (1.0 - fee))
    ensures Priced(rates, path, fee, initialAmount, i + 1, next, value)
  {
    var c := SellAtBid(rates[(path[i], path[i + 1])].bid);
    ExtendConversions(rates, path, i, cs, c);
    assert (cs + [c])[..|cs|] == cs;
  }

  /** A hop quoted only in reverse buys back at the ask: the amount is divided by the gross ask. */
  lemma BuyStep(rates: RateTable, path: seq<Currency>, fee: real, initialAmount: real, i: nat, cs: seq<Conversion>, amount: real,
                next: seq<Conversion>, value: real)
    requires PositiveQuotes(rates) && ValidFee(fee)
    requires Priced(rates, path, fee, initialAmount, i, cs, amount)
    requires i < HopCount(path) && (path[i], path[i + 1]) !in rates && (path[i + 1], path[i]) in rates
    requires var ask := rates[(path[i + 1], path[i])].ask;
      ask * (1.0 + fee) != 0.0 && next == cs + [BuyAtAsk(ask)] && value == amount / (ask * (1.0 + fee))
    ensures Priced(rates, path, fee, initialAmount, i + 1, next, value)
  {
    var c := BuyAtAsk(rates[(path[i + 1], path[i])].ask);
    ExtendConversions(rates, path, i, cs, c);
    assert (cs + [c])[..|cs|] == cs;
    PositiveProduct(c.ask, 1.0 + fee);
  }

  /** A hop quoted in neither direction ends the loop with the KeyError the whole path reports. */
  lemma StopStep(rates: RateTable, path: seq<Currency>, fee: real, initialAmount: real, i: nat, cs: seq<Conversion>, amount: real)
    requires PositiveQuotes(rates) && ValidFee(fee)
    requires Priced(rates, path, fee, initialAmount, i, cs, amount)
    requires i < HopCount(path) && (path[i], path[i + 1]) !in rates && (path[i + 1], path[i]) !in rates
    ensures Arbitrage(rates, path, fee, initialAmount) == KeyError((path[i + 1], path[i]))
  {
    assert !HopQuoted(rates, path, i);
    FailurePersists(rates, path, i + 1, HopCount(path));
  }

  /** After the last hop the amount relative to a nonzero initial amount is the multiplier;
      a zero initial amount makes the final division raise. */
  lemma FinishLoop(rates: RateTable, path: seq<Currency>, fee: real, initialAmount: real, cs: seq<Conversion>, amount: real)
    requires PositiveQuotes(rates) && ValidFee(fee)
    requires Priced(rates, path, fee, initialAmount, HopCount(path), cs, amount)
    ensures Arbitrage(rates, path, fee, initialAmount) ==
      if initialAmount == 0.0 then ZeroDivision else Ok(amount / initialAmount - 1.0)
  {
    if initialAmount != 0.0 {
      CompoundScales(initialAmount, cs, fee);
      Unscale(amount, initialAmount, Multiplier(cs, fee));
    }
  }

  /** What main.py's `calculate_arbitrage` returns or raises: the path's profit, whatever the
      initial amount, once every hop is quoted, unless the final division by a zero initial
      amount raises ZeroDivisionError; a missing hop raises its KeyError first. */
  function Arbitrage(rates: RateTable, path: seq<Currency>, fee: real, initialAmount: real): Result<real>
    requires PositiveQuotes(rates) && ValidFee(fee)
  {
    var p := PathProfit(rates, path, fee);
    if p.Ok? && initialAmount == 0.0 then ZeroDivision else p
  }

  /** The outcome of pricing a path: its profit, whatever the initial amount, once every hop is
      quoted and the initial amount is not zero; ZeroDivisionError for a zero initial amount on
      a fully quoted path; otherwise the KeyError of the first hop quoted in neither
      direction. */
  lemma ArbitrageOutcome(rates: RateTable, path: seq<Currency>, fee: real, initialAmount: real)
    requires PositiveQuotes(rates) && ValidFee(fee)
    ensures var r := Arbitrage(rates, path, fee, initialAmount);
      (initialAmount != 0.0 ==> r == PathProfit(rates, path, fee)) &&
      (r.Ok? <==> initialAmount != 0.0 && HopsQuoted(rates, path, HopCount(path))) &&
      (r.ZeroDivision? <==> initialAmount == 0.0 && HopsQuoted(rates, path, HopCount(path))) &&
      (r.KeyError? <==> !HopsQuoted(rates, path, HopCount(path))) &&
      (r.KeyError? ==> var j := FirstUnquoted(rates, path, HopCount(path));
        j < HopCount(path) && r.key == (path[j + 1], path[j]))
  {
    PathProfitOutcome(rates, path, fee);
  }

  /** The `calculate_arbitrage` loop of main.py: the amount starts at the initial amount and is multiplied by the
      net bid of each directly quoted hop, or divided by the gross ask of the reverse quote;
      the result is the final amount relative to the initial one, less one. */
  method CalculateArbitrage(rates: RateTable, path: seq<Currency>, fee: real, initialAmount: real) returns (r: Result<real>)
    requires PositiveQuotes(rates) && ValidFee(fee)
    ensures r == Arbitrage(rates, path, fee, initialAmount)
  {
    var amount := initialAmount;
    ghost var cs: seq<Conversion> := [];
    var i := 0;
    while i < |path| - 1
      invariant Priced(rates, path, fee, initialAmount, i, cs, amount)
    {
      var step;
      step, cs := ConvertHop(rates, path, fee, initialAmount, i, cs, amount);
      if !step.Ok? {
        return step;
      }
      amount := step.value;
      i := i + 1;
    }
    FinishLoop(rates, path, fee, initialAmount, cs, amount);
    if initialAmount == 0.0 {
      return ZeroDivision;
    }
    return Ok(amount / initialAmount - 1.0);
  }

  /** The body of the loop for hop i, path[i] -> path[i + 1]: the amount is multiplied by the
      net bid of the direct quote when there is one, or else divided by the gross ask of the
      reverse quote; with neither, the lookup of the reverse key raises its KeyError, which is
      then the outcome of the whole path. */
  method ConvertHop(rates: RateTable, path: seq<Currency>, fee: real, initialAmount: real, i: nat, ghost cs: seq<Conversion>, amount: real)
    returns (r: Result<real>, ghost next: seq<Conversion>)
    requires PositiveQuotes(rates) && ValidFee(fee)
    requires Priced(rates, path, fee, initialAmount, i, cs, amount) && i < HopCount(path)
    ensures r.Ok? ==> Priced(rates, path, fee, initialAmount, i + 1, next, r.value)
    ensures !r.Ok? ==> r == KeyError((path[i + 1], path[i])) && r == Arbitrage(rates, path, fee, initialAmount)
  {
    if (path[i], path[i + 1]) in rates {
      var bid := rates[(path[i], path[i + 1])].bid;
      r, next := Ok(amount * (bid * (1.0 - fee))), cs + [SellAtBid(bid)];
      SellStep(rates, path, fee, initialAmount, i, cs, amount, next, r.value);
    } else if (path[i + 1], path[i]) in rates {
      var ask := rates[(path[i + 1], path[i])].ask;
      PositiveProduct(ask, 1.0 + fee);
      r, next := Ok(amount / (ask * (1.0 + fee))), cs + [BuyAtAsk(ask)];
      BuyStep(rates, path, fee, initialAmount, i, cs, amount, next, r.value);
    } else {
      StopStep(rates, path, fee, initialAmount, i, cs, amount);
      r, next := KeyError((path[i + 1], path[i])), cs;
    }
  }

  /** Fee monotonicity of the multiplier: a larger fee never gives a larger product. */
  lemma {:induction false} MultiplierFeeMonotone(cs: seq<Conversion>, f1: real, f2: real)
    requires AllPositive(cs) && ValidFee(f1) && ValidFee(f2) && f1 <= f2
    ensures Multiplier(cs, f1) >= Multiplier(cs, f2)
  {
    if cs != [] {
      var prefix, c := cs[..|cs| - 1], cs[|cs| - 1];
      MultiplierStep(cs, f1);
      MultiplierStep(cs, f2);
      MultiplierFeeMonotone(prefix, f1, f2);
      FactorFeeMonotone(c, f1, f2);
      MultiplierPositive(prefix, f2);
      FactorPositive(c, f2);
      ProductMonotone(Multiplier(prefix, f1), Multiplier(prefix, f2), Factor(c, f1), Factor(c, f2));
    }
  }

  /** The multiplier of positive conversions is positive. */
  lemma {:induction false} MultiplierPositive(cs: seq<Conversion>, fee: real)
    requires AllPositive(cs) && ValidFee(fee)
    ensures Multiplier(cs, fee) > 0.0
  {
    if cs != [] {
      var prefix, c := cs[..|cs| - 1], cs[|cs| - 1];
      MultiplierStep(cs, fee);
      MultiplierPositive(prefix, fee);
      FactorPositive(c, fee);
      PositiveProduct(Multiplier(prefix, fee), Factor(c, fee));
    }
  }

  /** The multiplier of a nonempty list is that of all but the last conversion times the
      factor of the last. */
  lemma MultiplierStep(cs: seq<Conversion>, fee: real)
    requires AllPositive(cs) && ValidFee(fee) && cs != []
    ensures AllPositive(cs[..|cs| - 1]) && PositiveConversion(cs[|cs| - 1])
    ensures Multiplier(cs, fee) == Multiplier(cs[..|cs| - 1], fee) * Factor(cs[|cs| - 1], fee)
  {
    assert AllPositive(cs[..|cs| - 1]);
  }

  /** Fee monotonicity of the profit: for a fixed path and table, the profit at fee f1 is at
      least the profit at any larger fee f2, and the fee never decides whether, or with which
      KeyError, the path fails. */
  lemma PathProfitFeeMonotone(rates: RateTable, path: seq<Currency>, f1: real, f2: real)
    requires PositiveQuotes(rates) && ValidFee(f1) && ValidFee(f2) && f1 <= f2
    ensures PathProfit(rates, path, f1).Ok? <==> PathProfit(rates, path, f2).Ok?
    ensures PathProfit(rates, path, f1).Ok? ==> PathProfit(rates, path, f1).value >= PathProfit(rates, path, f2).value
    ensures PathProfit(rates, path, f1).KeyError? ==> PathProfit(rates, path, f1) == PathProfit(rates, path, f2)
  {
    var r := Conversions(rates, path, HopCount(path));
    if r.Ok? {
      MultiplierFeeMonotone(r.value, f1, f2);
    }
  }

  /** With no fee, the profit of a path is the product of its raw rates less one. */
  lemma {:induction false} ZeroFeeMultiplier(cs: seq<Conversion>)
    requires AllPositive(cs)
    ensures Multiplier(cs, 0.0) == RawProduct(cs)
  {
    if cs != [] {
      var n := |cs| - 1;
      ZeroFeeMultiplier(cs[..n]);
      FactorAgainstRawRate(cs[n], 0.0);
    }
  }

  /** The product of the raw rates of the conversions. */
  function RawProduct(cs: seq<Conversion>): real
    requires AllPositive(cs)
  {
    if cs == [] then 1.0 else RawProduct(cs[..|cs| - 1]) * RawRate(cs[|cs| - 1])
  }

  /** The round trip A -> B -> A over a single direct quote A/B sells at the bid and buys back
      at the ask: with no fee its profit is bid/ask - 1, so when the ask exceeds the bid the
      spread alone loses money, at every fee. */
  lemma SpreadRoundTrip(rates: RateTable, a: Currency, b: Currency, fee: real)
    requires PositiveQuotes(rates) && ValidFee(fee)
    requires (a, b) in rates && (b, a) !in rates
    ensures PathProfit(rates, [a, b, a], 0.0) == Ok(rates[(a, b)].bid / rates[(a, b)].ask - 1.0)
    ensures rates[(a, b)].ask > rates[(a, b)].bid ==> PathProfit(rates, [a, b, a], fee).value < 0.0
  {
    var q := rates[(a, b)];
    var cs := [SellAtBid(q.bid), BuyAtAsk(q.ask)];
    RoundTripConversions(rates, a, b);
    assert AllPositive(cs);
    ZeroFeeMultiplier(cs);
    RoundTripProduct(q.bid, q.ask);
    PathProfitFeeMonotone(rates, [a, b, a], 0.0, fee);
    if q.ask > q.bid {
      BelowOne(q.bid, q.ask);
    }
  }

  /** The round trip over a single direct quote sells at its bid, then buys back at its ask. */
  lemma RoundTripConversions(rates: RateTable, a: Currency, b: Currency)
    requires (a, b) in rates && (b, a) !in rates
    ensures Conversions(rates, [a, b, a], 2) == Ok([SellAtBid(rates[(a, b)].bid), BuyAtAsk(rates[(a, b)].ask)])
  {
    var q := rates[(a, b)];
    var path := [a, b, a];
    assert ConversionAt(rates, path, 0) == Ok(SellAtBid(q.bid));
    assert ConversionAt(rates, path, 1) == Ok(BuyAtAsk(q.ask));
    ExtendConversions(rates, path, 0, [], SellAtBid(q.bid));
    assert [] + [SellAtBid(q.bid)] == [SellAtBid(q.bid)];
    ExtendConversions(rates, path, 1, [SellAtBid(q.bid)], BuyAtAsk(q.ask));
    assert [SellAtBid(q.bid)] + [BuyAtAsk(q.ask)] == [SellAtBid(q.bid), BuyAtAsk(q.ask)];
  }

  lemma RoundTripProduct(bid: real, ask: real)
    requires bid > 0.0 && ask > 0.0
    ensures RawProduct([SellAtBid(bid), BuyAtAsk(ask)]) == bid / ask
  {
    assert [SellAtBid(bid), BuyAtAsk(ask)][..1] == [SellAtBid(bid)];
    assert [SellAtBid(bid)][..0] == [];
    assert RawProduct([SellAtBid(bid)]) == bid;
  }
}
