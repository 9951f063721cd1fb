/** The search for arbitrage opportunities: every cycle of 3 to 5 currencies is priced, those
    whose profit clears the threshold are kept as triples, and the triples are ranked. */
module Opportunities {

  import opened Rates
  import opened Profit
  import opened Enumeration
  import opened Ranking

  /** The fee charged on every conversion, as a fraction (no fee). */
  const BrokerFeePercentage: real := 0.0
  /** The profit fraction an opportunity must exceed to be reported (0.1%). */
  const MinimumProfitThreshold: real := 0.001
  /** The initial amount the search prices every cycle with. */
  const DefaultInitialAmount: real := 100000.0
  /** The currencies the search draws its cycles from. */
  const Currencies: seq<Currency> := ["USD", "EUR", "JPY", "GBP", "CHF", "CAD", "AUD", "NZD", "CNY", "INR"]

  /** The failure of one priced path, as the failure of the whole search. */
  function Failure<T>(p: Result<real>): (r: Result<T>)
    requires !p.Ok?
    ensures !r.Ok? && r.KeyError? == p.KeyError? && (p.KeyError? ==> r.key == p.key)
  {
    if p.KeyError? then KeyError(p.key) else ZeroDivision
  }

  /** The opportunity triple of a priced path. */
  function Triple(path: seq<Currency>, profit: real, initialAmount: real): Opportunity
  {
    Opportunity(path, profit, profit * initialAmount)
  }

  /** The opportunity carries its profit fraction of the initial amount. */
  predicate Scaled(o: Opportunity, initialAmount: real)
  {
    o.amount == o.profit * initialAmount
  }

  /** The search after one more path, priced to p: a profit strictly above the threshold
      appends the path's triple, a lower one changes nothing, and a pricing error ends the
      search with that error; a search that has already failed stays failed. */
  function Record(prev: Result<seq<Opportunity>>, path: seq<Currency>, p: Result<real>, threshold: real, initialAmount: real): Result<seq<Opportunity>>
  {
    if !prev.Ok? then prev
    else if !p.Ok? then Failure(p)
    else if p.value > threshold then Ok(prev.value + [Triple(path, p.value, initialAmount)])
    else prev
  }

  /** The search after the paths, each with its price, taken in order from prev. */
  function Tally(prev: Result<seq<Opportunity>>, paths: seq<seq<Currency>>, prices: seq<Result<real>>, threshold: real, initialAmount: real): Result<seq<Opportunity>>
    requires |prices| == |paths|
  {
    if paths == [] then prev
    else
      var n := |paths| - 1;
      Record(Tally(prev, paths[..n], prices[..n], threshold, initialAmount), paths[n], prices[n], threshold, initialAmount)
  }

  /** The price of each path, in order. */
  function Prices(rates: RateTable, paths: seq<seq<Currency>>, fee: real, initialAmount: real): (r: seq<Result<real>>)
    requires PositiveQuotes(rates) && ValidFee(fee)
    ensures |r| == |paths|
  {
    if paths == [] then []
    else
      var n := |paths| - 1;
      Prices(rates, paths[..n], fee, initialAmount) + [Arbitrage(rates, paths[n], fee, initialAmount)]
  }

  /** The search after pricing the paths in order, starting from prev. */
  function Collect(rates: RateTable, prev: Result<seq<Opportunity>>, paths: seq<seq<Currency>>, fee: real, threshold: real, initialAmount: real): Result<seq<Opportunity>>
    requires PositiveQuotes(rates) && ValidFee(fee)
  {
    if paths == [] then prev
    else
      var n := |paths| - 1;
      Record(Collect(rates, prev, paths[..n], fee, threshold, initialAmount), paths[n],
             Arbitrage(rates, paths[n], fee, initialAmount), threshold, initialAmount)
  }

  /** The search after every length below n, one length after the other: the selections of
      each length are closed into cycles and priced after those of the shorter lengths. */
  function Searched(rates: RateTable, u: seq<Currency>, n: nat, fee: real, threshold: real, initialAmount: real): Result<seq<Opportunity>>
    requires PositiveQuotes(rates) && ValidFee(fee)
    decreases n
  {
    if n <= MinLength then Ok([])
    else
      PermutationLengths(u, n - 1);
      Collect(rates, Searched(rates, u, n - 1, fee, threshold, initialAmount), CloseAll(Permutations(u, n - 1)), fee, threshold, initialAmount)
  }

  /** The outcome of the whole search over the pool u: the ranked triples, or the error of the
      first cycle whose pricing raises. */
  function Ranked(rates: RateTable, u: seq<Currency>, fee: real, threshold: real, initialAmount: real): Result<seq<Opportunity>>
    requires PositiveQuotes(rates) && ValidFee(fee)
  {
    var r := Searched(rates, u, MaxLength, fee, threshold, initialAmount);
    if r.Ok? then Ok(SortByProfit(r.value)) else r
  }

  /** The search of main.py's `find_arbitrage_opportunities`: for each length from 3 to 5, every permutation of that many
      currencies, closed into a cycle, is priced; a profit strictly above the threshold adds
      the triple (path, profit, profit * initial amount); the triples are finally sorted by
      profit, largest first. A pricing error ends the search. */
  method SearchCycles(rates: RateTable, currencies: seq<Currency>, fee: real, threshold: real, initialAmount: real)
    returns (r: Result<seq<Opportunity>>)
    requires PositiveQuotes(rates) && ValidFee(fee)
    ensures r == Ranked(rates, currencies, fee, threshold, initialAmount)
  {
    var found: Result<seq<Opportunity>> := Ok([]);
    var length := MinLength;
    while length < MaxLength && found.Ok?
      invariant MinLength <= length <= MaxLength
      invariant Searched(rates, currencies, length, fee, threshold, initialAmount) == found
    {
      found := PriceLength(rates, currencies, length, fee, threshold, initialAmount, found.value);
      length := length + 1;
    }
    if !found.Ok? {
      SearchedFailed(rates, currencies, length, MaxLength, fee, threshold, initialAmount);
      return found;
    }
    return Ok(SortByProfit(found.value));
  }

  /** The search as `find_arbitrage_opportunities` runs it: over its ten currencies, with its fee and its
      threshold. What the outcome means is stated, for any pool, by RankedFailure,
      RankedOrder, RankedSound and RankedComplete; CurrenciesDistinct supplies their
      hypothesis that the pool has no repeats. */
  method FindArbitrageOpportunities(rates: RateTable, initialAmount: real) returns (r: Result<seq<Opportunity>>)
    requires PositiveQuotes(rates)
    ensures r == Ranked(rates, Currencies, BrokerFeePercentage, MinimumProfitThreshold, initialAmount)
  {
    r := SearchCycles(rates, Currencies, BrokerFeePercentage, MinimumProfitThreshold, initialAmount);
  }

  /** The ten currencies of the search are pairwise different. */
  lemma CurrenciesDistinct()
    ensures Distinct(Currencies)
  {
  }

  /** One pass of the outer loop: the selections of one length are closed into cycles and
      priced after the cycles of the shorter lengths. */
  method PriceLength(rates: RateTable, currencies: seq<Currency>, length: nat, fee: real, threshold: real, initialAmount: real,
                     opportunities: seq<Opportunity>)
    returns (step: Result<seq<Opportunity>>)
    requires PositiveQuotes(rates) && ValidFee(fee) && MinLength <= length
    requires Searched(rates, currencies, length, fee, threshold, initialAmount) == Ok(opportunities)
    ensures Searched(rates, currencies, length + 1, fee, threshold, initialAmount) == step
  {
    var perms := Permutations(currencies, length);
    PermutationLengths(currencies, length);
    step := PriceSelections(rates, perms, fee, threshold, initialAmount, opportunities);
  }

  /** The inner loop of the search: each selection of one length is closed into a cycle and
      priced, in order, after the opportunities already found. */
  method PriceSelections(rates: RateTable, perms: seq<seq<Currency>>, fee: real, threshold: real, initialAmount: real,
                         opportunities: seq<Opportunity>)
    returns (r: Result<seq<Opportunity>>)
    requires PositiveQuotes(rates) && ValidFee(fee)
    requires forall j :: 0 <= j < |perms| ==> |perms[j]| > 0
    ensures r == Collect(rates, Ok(opportunities), CloseAll(perms), fee, threshold, initialAmount)
  {
    var found := opportunities;
    for j := 0 to |perms|
      invariant Collect(rates, Ok(opportunities), CloseAll(perms[..j]), fee, threshold, initialAmount) == Ok(found)
    {
      var step := PricePath(rates, perms[j] + [perms[j][0]], fee, threshold, initialAmount, found);
      SelectionStep(rates, Ok(opportunities), perms, j, fee, threshold, initialAmount);
      if !step.Ok? {
        SelectionAbort(rates, Ok(opportunities), perms, j, fee, threshold, initialAmount);
        return step;
      }
      found := step.value;
    }
    assert perms[..|perms|] == perms;
    return Ok(found);
  }

  /** The body of the inner loop: the closed path is priced, and a profit strictly above the
      threshold appends the triple (path, profit, profit * initial amount); a pricing error
      is the error of the whole search. */
  method PricePath(rates: RateTable, path: seq<Currency>, fee: real, threshold: real, initialAmount: real,
                   found: seq<Opportunity>)
    returns (r: Result<seq<Opportunity>>)
    requires PositiveQuotes(rates) && ValidFee(fee)
    ensures r == Record(Ok(found), path, Arbitrage(rates, path, fee, initialAmount), threshold, initialAmount)
  {
    var profit := CalculateArbitrage(rates, path, fee, initialAmount);
    if !profit.Ok? {
      return Failure(profit);
    }
    if profit.value > threshold {
      return Ok(found + [Opportunity(path, profit.value, profit.value * initialAmount)]);
    }
    return Ok(found);
  }

  /** The search length by length is the search over all the cycles below n in their order. */
  lemma {:induction false} SearchedCollect(rates: RateTable, u: seq<Currency>, n: nat, fee: real, threshold: real, initialAmount: real)
    requires PositiveQuotes(rates) && ValidFee(fee)
    ensures Searched(rates, u, n, fee, threshold, initialAmount) == Collect(rates, Ok([]), CyclesBelow(u, n), fee, threshold, initialAmount)
    decreases n
  {
    if n > MinLength {
      SearchedCollect(rates, u, n - 1, fee, threshold, initialAmount);
      SearchedCollectStep(rates, u, n, fee, threshold, initialAmount);
    }
  }

  lemma SearchedCollectStep(rates: RateTable, u: seq<Currency>, n: nat, fee: real, threshold: real, initialAmount: real)
    requires PositiveQuotes(rates) && ValidFee(fee) && n > MinLength
    requires Searched(rates, u, n - 1, fee, threshold, initialAmount) == Collect(rates, Ok([]), CyclesBelow(u, n - 1), fee, threshold, initialAmount)
    ensures Searched(rates, u, n, fee, threshold, initialAmount) == Collect(rates, Ok([]), CyclesBelow(u, n), fee, threshold, initialAmount)
  {
    CyclesBelowNext(u, n - 1);
    CollectConcat(rates, Ok([]), CyclesBelow(u, n - 1), CloseAll(Permutations(u, n - 1)), fee, threshold, initialAmount);
  }

  /** A search that has failed by length m keeps that error through every later length. */
  lemma {:induction false} SearchedFailed(rates: RateTable, u: seq<Currency>, m: nat, n: nat, fee: real, threshold: real, initialAmount: real)
    requires PositiveQuotes(rates) && ValidFee(fee)
    requires m <= n && !Searched(rates, u, m, fee, threshold, initialAmount).Ok?
    ensures Searched(rates, u, n, fee, threshold, initialAmount) == Searched(rates, u, m, fee, threshold, initialAmount)
    decreases n
  {
    if m < n {
      SearchedFailed(rates, u, m, n - 1, fee, threshold, initialAmount);
      SearchedFailedStep(rates, u, n, fee, threshold, initialAmount);
    }
  }

  lemma SearchedFailedStep(rates: RateTable, u: seq<Currency>, n: nat, fee: real, threshold: real, initialAmount: real)
    requires PositiveQuotes(rates) && ValidFee(fee) && n > MinLength
    requires !Searched(rates, u, n - 1, fee, threshold, initialAmount).Ok?
    ensures Searched(rates, u, n, fee, threshold, initialAmount) == Searched(rates, u, n - 1, fee, threshold, initialAmount)
  {
    PermutationLengths(u, n - 1);
    CollectFailed(rates, Searched(rates, u, n - 1, fee, threshold, initialAmount), CloseAll(Permutations(u, n - 1)), fee, threshold, initialAmount);
  }

  /** Closing one more selection prices one more cycle. */
  lemma SelectionStep(rates: RateTable, prev: Result<seq<Opportunity>>, perms: seq<seq<Currency>>, j: nat, fee: real, threshold: real, initialAmount: real)
    requires PositiveQuotes(rates) && ValidFee(fee)
    requires forall i :: 0 <= i < |perms| ==> |perms[i]| > 0
    requires j < |perms|
    ensures Collect(rates, prev, CloseAll(perms[..j + 1]), fee, threshold, initialAmount) ==
      Record(Collect(rates, prev, CloseAll(perms[..j]), fee, threshold, initialAmount), perms[j] + [perms[j][0]],
             Arbitrage(rates, perms[j] + [perms[j][0]], fee, initialAmount), threshold, initialAmount)
  {
    var a, b := CloseAll(perms[..j]), CloseAll(perms[..j + 1]);
    assert b[..j] == a;
  }

  /** Once the search has failed on one selection, the later selections of the same length do
      not change its outcome. */
  lemma SelectionAbort(rates: RateTable, prev: Result<seq<Opportunity>>, perms: seq<seq<Currency>>, j: nat, fee: real, threshold: real, initialAmount: real)
    requires PositiveQuotes(rates) && ValidFee(fee)
    requires forall i :: 0 <= i < |perms| ==> |perms[i]| > 0
    requires j < |perms| && !Collect(rates, prev, CloseAll(perms[..j + 1]), fee, threshold, initialAmount).Ok?
    ensures Collect(rates, prev, CloseAll(perms), fee, threshold, initialAmount) ==
      Collect(rates, prev, CloseAll(perms[..j + 1]), fee, threshold, initialAmount)
  {
    assert CloseAll(perms[..j + 1]) <= CloseAll(perms);
    CollectPrefixFailed(rates, prev, CloseAll(perms[..j + 1]), CloseAll(perms), fee, threshold, initialAmount);
  }

  /** A search that fails on a prefix of the paths fails with that error on all of them. */
  lemma CollectPrefixFailed(rates: RateTable, prev: Result<seq<Opportunity>>, done: seq<seq<Currency>>, paths: seq<seq<Currency>>, fee: real, threshold: real, initialAmount: real)
    requires PositiveQuotes(rates) && ValidFee(fee)
    requires done <= paths && !Collect(rates, prev, done, fee, threshold, initialAmount).Ok?
    ensures Collect(rates, prev, paths, fee, threshold, initialAmount) == Collect(rates, prev, done, fee, threshold, initialAmount)
  {
    assert paths == done + paths[|done|..];
    CollectConcat(rates, prev, done, paths[|done|..], fee, threshold, initialAmount);
    CollectFailed(rates, Collect(rates, prev, done, fee, threshold, initialAmount), paths[|done|..], fee, threshold, initialAmount);
  }

  /** Pricing a + b is pricing a, then b. */
  lemma {:induction false} CollectConcat(rates: RateTable, prev: Result<seq<Opportunity>>, a: seq<seq<Currency>>, b: seq<seq<Currency>>, fee: real, threshold: real, initialAmount: real)
    requires PositiveQuotes(rates) && ValidFee(fee)
    ensures Collect(rates, prev, a + b, fee, threshold, initialAmount) ==
      Collect(rates, Collect(rates, prev, a, fee, threshold, initialAmount), b, fee, threshold, initialAmount)
  {
    if b == [] {
      assert a + b == a;
    } else {
      var n := |b| - 1;
      assert (a + b)[..|a + b| - 1] == a + b[..n];
      CollectConcat(rates, prev, a, b[..n], fee, threshold, initialAmount);
    }
  }

  /** A failed search stays failed, with the same error, whatever is priced after. */
  lemma {:induction false} CollectFailed(rates: RateTable, prev: Result<seq<Opportunity>>, paths: seq<seq<Currency>>, fee: real, threshold: real, initialAmount: real)
    requires PositiveQuotes(rates) && ValidFee(fee) && !prev.Ok?
    ensures Collect(rates, prev, paths, fee, threshold, initialAmount) == prev
  {
    if paths != [] {
      CollectFailed(rates, prev, paths[..|paths| - 1], fee, threshold, initialAmount);
    }
  }

  /** The search over the paths is the search over the paths with their prices. */
  lemma {:induction false} CollectTally(rates: RateTable, prev: Result<seq<Opportunity>>, paths: seq<seq<Currency>>, fee: real, threshold: real, initialAmount: real)
    requires PositiveQuotes(rates) && ValidFee(fee)
    ensures Collect(rates, prev, paths, fee, threshold, initialAmount) ==
      Tally(prev, paths, Prices(rates, paths, fee, initialAmount), threshold, initialAmount)
  {
    if paths != [] {
      var n := |paths| - 1;
      CollectTally(rates, prev, paths[..n], fee, threshold, initialAmount);
      assert Prices(rates, paths, fee, initialAmount)[..n] == Prices(rates, paths[..n], fee, initialAmount);
    }
  }

  /** The price of path i is its profit computation. */
  lemma {:induction false} PricesAt(rates: RateTable, paths: seq<seq<Currency>>, fee: real, initialAmount: real)
    requires PositiveQuotes(rates) && ValidFee(fee)
    ensures forall i :: 0 <= i < |paths| ==> Prices(rates, paths, fee, initialAmount)[i] == Arbitrage(rates, paths[i], fee, initialAmount)
  {
    if paths != [] {
      var n := |paths| - 1;
      PricesAt(rates, paths[..n], fee, initialAmount);
      assert forall i :: 0 <= i < n ==> paths[..n][i] == paths[i];
    }
  }

  /** The search succeeds exactly when every path is priced without error. */
  lemma CollectOk(rates: RateTable, found: seq<Opportunity>, paths: seq<seq<Currency>>, fee: real, threshold: real, initialAmount: real)
    requires PositiveQuotes(rates) && ValidFee(fee)
    ensures Collect(rates, Ok(found), paths, fee, threshold, initialAmount).Ok? <==>
      forall i :: 0 <= i < |paths| ==> Arbitrage(rates, paths[i], fee, initialAmount).Ok?
  {
    CollectTally(rates, Ok(found), paths, fee, threshold, initialAmount);
    PricesAt(rates, paths, fee, initialAmount);
    TallyOk(found, paths, Prices(rates, paths, fee, initialAmount), threshold, initialAmount);
  }

  /** A failed search reports the error of the first path whose pricing fails. */
  lemma CollectError(rates: RateTable, found: seq<Opportunity>, paths: seq<seq<Currency>>, fee: real, threshold: real, initialAmount: real)
    requires PositiveQuotes(rates) && ValidFee(fee)
    requires !Collect(rates, Ok(found), paths, fee, threshold, initialAmount).Ok?
    ensures exists i :: (0 <= i < |paths| && !Arbitrage(rates, paths[i], fee, initialAmount).Ok? &&
      (forall j :: 0 <= j < i ==> Arbitrage(rates, paths[j], fee, initialAmount).Ok?) &&
      Collect(rates, Ok(found), paths, fee, threshold, initialAmount) == Failure(Arbitrage(rates, paths[i], fee, initialAmount)))
  {
    var prices := Prices(rates, paths, fee, initialAmount);
    CollectTally(rates, Ok(found), paths, fee, threshold, initialAmount);
    PricesAt(rates, paths, fee, initialAmount);
    TallyError(found, paths, prices, threshold, initialAmount);
    var i :| 0 <= i < |paths| && !prices[i].Ok? && (forall j :: 0 <= j < i ==> prices[j].Ok?) &&
      Tally(Ok(found), paths, prices, threshold, initialAmount) == Failure(prices[i]);
    var p := Arbitrage(rates, paths[i], fee, initialAmount);
    assert prices[i] == p;
    assert forall j :: 0 <= j < i ==> Arbitrage(rates, paths[j], fee, initialAmount).Ok? by {
      assert forall j :: 0 <= j < i ==> prices[j] == Arbitrage(rates, paths[j], fee, initialAmount);
    }
    assert Collect(rates, Ok(found), paths, fee, threshold, initialAmount) == Failure(p);
  }

  /** Soundness: every opportunity a successful search adds belongs to one of the paths, is
      priced to exactly its profit, which is strictly above the threshold, and carries that
      profit times the initial amount. */
  lemma CollectSound(rates: RateTable, found: seq<Opportunity>, paths: seq<seq<Currency>>, fee: real, threshold: real, initialAmount: real)
    requires PositiveQuotes(rates) && ValidFee(fee)
    requires Collect(rates, Ok(found), paths, fee, threshold, initialAmount).Ok?
    ensures var os := Collect(rates, Ok(found), paths, fee, threshold, initialAmount).value;
      found <= os &&
      forall k :: |found| <= k < |os| ==> (os[k].path in paths &&
        Arbitrage(rates, os[k].path, fee, initialAmount) == Ok(os[k].profit) &&
        os[k].profit > threshold && Scaled(os[k], initialAmount))
  {
    var prices := Prices(rates, paths, fee, initialAmount);
    var os := Collect(rates, Ok(found), paths, fee, threshold, initialAmount).value;
    CollectTally(rates, Ok(found), paths, fee, threshold, initialAmount);
    PricesAt(rates, paths, fee, initialAmount);
    TallySound(found, paths, prices, threshold, initialAmount);
    var ts := Tally(Ok(found), paths, prices, threshold, initialAmount).value;
    assert ts == os;
    forall k | |found| <= k < |os|
      ensures os[k].path in paths && Arbitrage(rates, os[k].path, fee, initialAmount) == Ok(os[k].profit) &&
        os[k].profit > threshold && Scaled(os[k], initialAmount)
    {
      assert ts[k] == os[k];
      var i :| 0 <= i < |paths| && ts[k].path == paths[i] && prices[i] == Ok(ts[k].profit);
    }
  }

  /** Completeness: after a successful search every path was priced without error, and each
      one whose profit is strictly above the threshold has its triple among the results. */
  lemma CollectComplete(rates: RateTable, found: seq<Opportunity>, paths: seq<seq<Currency>>, fee: real, threshold: real, initialAmount: real)
    requires PositiveQuotes(rates) && ValidFee(fee)
    requires Collect(rates, Ok(found), paths, fee, threshold, initialAmount).Ok?
    ensures var os := Collect(rates, Ok(found), paths, fee, threshold, initialAmount).value;
      found <= os &&
      forall i :: 0 <= i < |paths| ==> (Arbitrage(rates, paths[i], fee, initialAmount).Ok? &&
        (Arbitrage(rates, paths[i], fee, initialAmount).value > threshold ==>
          Triple(paths[i], Arbitrage(rates, paths[i], fee, initialAmount).value, initialAmount) in os))
  {
    var prices := Prices(rates, paths, fee, initialAmount);
    CollectTally(rates, Ok(found), paths, fee, threshold, initialAmount);
    PricesAt(rates, paths, fee, initialAmount);
    TallyComplete(found, paths, prices, threshold, initialAmount);
  }

  /** The search length by length is the search over the whole enumeration of cycles. */
  lemma RankedCollect(rates: RateTable, u: seq<Currency>, fee: real, threshold: real, initialAmount: real)
    requires PositiveQuotes(rates) && ValidFee(fee)
    ensures var r := Collect(rates, Ok([]), Cycles(u), fee, threshold, initialAmount);
      Ranked(rates, u, fee, threshold, initialAmount) == if r.Ok? then Ok(SortByProfit(r.value)) else r
  {
    SearchedCollect(rates, u, MaxLength, fee, threshold, initialAmount);
  }

  /** The ranked triples are those found, rearranged: sorted by profit, largest first, and
      those of equal profit in the order in which their cycles were enumerated. */
  lemma RankedOrder(rates: RateTable, u: seq<Currency>, fee: real, threshold: real, initialAmount: real)
    requires PositiveQuotes(rates) && ValidFee(fee)
    requires Ranked(rates, u, fee, threshold, initialAmount).Ok?
    ensures Collect(rates, Ok([]), Cycles(u), fee, threshold, initialAmount).Ok?
    ensures var os := Ranked(rates, u, fee, threshold, initialAmount).value;
      var found := Collect(rates, Ok([]), Cycles(u), fee, threshold, initialAmount).value;
      SortedByProfit(os) && multiset(os) == multiset(found) &&
      forall v :: WithProfit(os, v) == WithProfit(found, v)
  {
    RankedCollect(rates, u, fee, threshold, initialAmount);
    var found := Collect(rates, Ok([]), Cycles(u), fee, threshold, initialAmount).value;
    SortByProfitSorted(found);
    SortByProfitPermutes(found);
    forall v
      ensures WithProfit(SortByProfit(found), v) == WithProfit(found, v)
    {
      SortByProfitStable(found, v);
    }
  }

  /** Soundness of the search: every reported triple belongs to an enumerated cycle, carries
      exactly that cycle's profit, which is strictly above the threshold, and that profit
      times the initial amount; over a pool without repeats each such cycle has 3 to 5
      distinct currencies of the pool and ends where it starts. */
  lemma RankedSound(rates: RateTable, u: seq<Currency>, fee: real, threshold: real, initialAmount: real)
    requires PositiveQuotes(rates) && ValidFee(fee)
    requires Ranked(rates, u, fee, threshold, initialAmount).Ok?
    ensures forall o :: o in Ranked(rates, u, fee, threshold, initialAmount).value ==>
      o.path in Cycles(u) && Arbitrage(rates, o.path, fee, initialAmount) == Ok(o.profit) &&
      o.profit > threshold && Scaled(o, initialAmount)
    ensures Distinct(u) ==> forall o :: o in Ranked(rates, u, fee, threshold, initialAmount).value ==> IsCycle(u, o.path)
  {
    var os := Ranked(rates, u, fee, threshold, initialAmount).value;
    RankedOrder(rates, u, fee, threshold, initialAmount);
    var found := Collect(rates, Ok([]), Cycles(u), fee, threshold, initialAmount).value;
    CollectSound(rates, [], Cycles(u), fee, threshold, initialAmount);
    forall o | o in os
      ensures o in found
    {
      assert o in multiset(os);
    }
    if Distinct(u) {
      CyclesSound(u);
    }
  }

  /** Completeness of the search: after a successful search every cycle of 3 to 5 distinct
      currencies of the pool was priced without error, and each whose profit is strictly
      above the threshold is reported with its triple. */
  lemma RankedComplete(rates: RateTable, u: seq<Currency>, fee: real, threshold: real, initialAmount: real, c: seq<Currency>)
    requires PositiveQuotes(rates) && ValidFee(fee)
    requires Ranked(rates, u, fee, threshold, initialAmount).Ok? && IsCycle(u, c)
    ensures Arbitrage(rates, c, fee, initialAmount).Ok?
    ensures Arbitrage(rates, c, fee, initialAmount).value > threshold ==>
      Triple(c, Arbitrage(rates, c, fee, initialAmount).value, initialAmount) in Ranked(rates, u, fee, threshold, initialAmount).value
  {
    var cycles := Cycles(u);
    CyclesComplete(u, c);
    var i :| 0 <= i < |cycles| && cycles[i] == c;
    RankedOrder(rates, u, fee, threshold, initialAmount);
    CollectComplete(rates, [], cycles, fee, threshold, initialAmount);
    var p := Arbitrage(rates, c, fee, initialAmount);
    if p.value > threshold {
      var found := Collect(rates, Ok([]), cycles, fee, threshold, initialAmount).value;
      assert Triple(c, p.value, initialAmount) in multiset(found);
    }
  }

  /** The search succeeds exactly when every enumerated cycle is priced without error; when
      it fails, it reports the error of the first cycle in enumeration order whose pricing
      fails. */
  lemma RankedFailure(rates: RateTable, u: seq<Currency>, fee: real, threshold: real, initialAmount: real)
    requires PositiveQuotes(rates) && ValidFee(fee)
    ensures Ranked(rates, u, fee, threshold, initialAmount).Ok? <==>
      forall c :: c in Cycles(u) ==> Arbitrage(rates, c, fee, initialAmount).Ok?
    ensures !Ranked(rates, u, fee, threshold, initialAmount).Ok? ==>
      exists i :: (0 <= i < |Cycles(u)| && !Arbitrage(rates, Cycles(u)[i], fee, initialAmount).Ok? &&
        (forall j :: 0 <= j < i ==> Arbitrage(rates, Cycles(u)[j], fee, initialAmount).Ok?) &&
        Ranked(rates, u, fee, threshold, initialAmount) == Failure(Arbitrage(rates, Cycles(u)[i], fee, initialAmount)))
  {
    var cycles := Cycles(u);
    RankedCollect(rates, u, fee, threshold, initialAmount);
    CollectOk(rates, [], cycles, fee, threshold, initialAmount);
    assert (forall c :: c in cycles ==> Arbitrage(rates, c, fee, initialAmount).Ok?) <==>
      (forall i :: 0 <= i < |cycles| ==> Arbitrage(rates, cycles[i], fee, initialAmount).Ok?) by {
      assert forall i :: 0 <= i < |cycles| ==> cycles[i] in cycles;
    }
    if !Ranked(rates, u, fee, threshold, initialAmount).Ok? {
      CollectError(rates, [], cycles, fee, threshold, initialAmount);
    }
  }

  /** Ties are not broken by any key: among the ranked triples of one profit, shorter cycles
      come first, because the lengths are searched in increasing order and the sort is
      stable. */
  lemma RankedTiesByLength(rates: RateTable, u: seq<Currency>, fee: real, threshold: real, initialAmount: real, v: real)
    requires PositiveQuotes(rates) && ValidFee(fee)
    requires Ranked(rates, u, fee, threshold, initialAmount).Ok?
    ensures LengthOrdered(WithProfit(Ranked(rates, u, fee, threshold, initialAmount).value, v))
  {
    RankedOrder(rates, u, fee, threshold, initialAmount);
    CyclesOrdered(u);
    CollectLengthOrdered(rates, Cycles(u), fee, threshold, initialAmount);
    var found := Collect(rates, Ok([]), Cycles(u), fee, threshold, initialAmount).value;
    WithProfitLengthOrdered(found, v);
  }

  /** Pricing paths of non-decreasing length keeps the found triples in that order. */
  lemma {:induction false} CollectLengthOrdered(rates: RateTable, paths: seq<seq<Currency>>, fee: real, threshold: real, initialAmount: real)
    requires PositiveQuotes(rates) && ValidFee(fee)
    requires forall i, j :: 0 <= i < j < |paths| ==> |paths[i]| <= |paths[j]|
    requires Collect(rates, Ok([]), paths, fee, threshold, initialAmount).Ok?
    ensures var os := Collect(rates, Ok([]), paths, fee, threshold, initialAmount).value;
      LengthOrdered(os) && forall k :: 0 <= k < |os| ==> os[k].path in paths
  {
    if paths != [] {
      var n := |paths| - 1;
      var prev := Collect(rates, Ok([]), paths[..n], fee, threshold, initialAmount);
      assert prev.Ok?;
      CollectLengthOrdered(rates, paths[..n], fee, threshold, initialAmount);
      var os := Collect(rates, Ok([]), paths, fee, threshold, initialAmount).value;
      forall k | 0 <= k < |prev.value|
        ensures |prev.value[k].path| <= |paths[n]| && prev.value[k].path in paths
      {
        var i :| 0 <= i < n && paths[..n][i] == prev.value[k].path;
        assert paths[i] == prev.value[k].path;
      }
      if os != prev.value {
        assert os == prev.value + [Triple(paths[n], Arbitrage(rates, paths[n], fee, initialAmount).value, initialAmount)];
        assert os[|os| - 1].path == paths[n];
      }
    }
  }

  /** A cycle with a hop quoted in neither direction makes the whole search fail with a
      KeyError (for a nonzero initial amount; with a zero one the first fully quoted cycle
      may raise ZeroDivisionError first). */
  lemma MissingPairAborts(rates: RateTable, u: seq<Currency>, fee: real, threshold: real, initialAmount: real, c: seq<Currency>)
    requires PositiveQuotes(rates) && ValidFee(fee) && initialAmount != 0.0
    requires IsCycle(u, c) && !HopsQuoted(rates, c, HopCount(c))
    ensures Ranked(rates, u, fee, threshold, initialAmount).KeyError?
  {
    var cycles := Cycles(u);
    var ranked := Ranked(rates, u, fee, threshold, initialAmount);
    RankedFailure(rates, u, fee, threshold, initialAmount);
    assert !ranked.Ok? by {
      CyclesComplete(u, c);
      ArbitrageOutcome(rates, c, fee, initialAmount);
    }
    var i :| 0 <= i < |cycles| && !Arbitrage(rates, cycles[i], fee, initialAmount).Ok? &&
      ranked == Failure(Arbitrage(rates, cycles[i], fee, initialAmount));
    var p := Arbitrage(rates, cycles[i], fee, initialAmount);
    assert p.KeyError? by {
      ArbitrageOutcome(rates, cycles[i], fee, initialAmount);
    }
    assert ranked == Failure(p);
  }

  /** Over a pool without repeats whose every pair of distinct currencies is quoted in some
      direction, the search succeeds for any nonzero initial amount. */
  lemma FullTableSucceeds(rates: RateTable, u: seq<Currency>, fee: real, threshold: real, initialAmount: real)
    requires PositiveQuotes(rates) && ValidFee(fee) && initialAmount != 0.0 && Distinct(u)
    requires forall a, b :: a in u && b in u && a != b ==> Quoted(rates, a, b)
    ensures Ranked(rates, u, fee, threshold, initialAmount).Ok?
  {
    CyclesSound(u);
    forall c | c in Cycles(u)
      ensures Arbitrage(rates, c, fee, initialAmount).Ok?
    {
      CycleHopsQuoted(rates, u, c);
      ArbitrageOutcome(rates, c, fee, initialAmount);
    }
    RankedFailure(rates, u, fee, threshold, initialAmount);
  }

  /** Consecutive currencies of a cycle differ, so a table quoting every pair of distinct
      currencies of the pool quotes every hop. */
  lemma CycleHopsQuoted(rates: RateTable, u: seq<Currency>, c: seq<Currency>)
    requires IsCycle(u, c)
    requires forall a, b :: a in u && b in u && a != b ==> Quoted(rates, a, b)
    ensures HopsQuoted(rates, c, HopCount(c))
  {
    var n := |c| - 1;
    forall j | 0 <= j < n
      ensures HopQuoted(rates, c, j)
    {
      assert c[j] == c[..n][j];
      if j + 1 < n {
        assert c[j + 1] == c[..n][j + 1];
      } else {
        assert c[j + 1] == c[..n][0];
      }
      assert c[j] in c && c[j + 1] in c;
    }
  }

  /** The search succeeds exactly when every price is a value. */
  lemma {:induction false} TallyOk(found: seq<Opportunity>, paths: seq<seq<Currency>>, prices: seq<Result<real>>, threshold: real, initialAmount: real)
    requires |prices| == |paths|
    ensures Tally(Ok(found), paths, prices, threshold, initialAmount).Ok? <==> forall i :: 0 <= i < |prices| ==> prices[i].Ok?
  {
    if paths != [] {
      var n := |paths| - 1;
      TallyOk(found, paths[..n], prices[..n], threshold, initialAmount);
      assert forall i :: 0 <= i < n ==> prices[..n][i] == prices[i];
    }
  }

  /** A failed search carries the error of its first failing price. */
  lemma {:induction false} TallyError(found: seq<Opportunity>, paths: seq<seq<Currency>>, prices: seq<Result<real>>, threshold: real, initialAmount: real)
    requires |prices| == |paths| && !Tally(Ok(found), paths, prices, threshold, initialAmount).Ok?
    ensures exists i :: (0 <= i < |prices| && !prices[i].Ok? && (forall j :: 0 <= j < i ==> prices[j].Ok?) &&
      Tally(Ok(found), paths, prices, threshold, initialAmount) == Failure(prices[i]))
  {
    var n := |paths| - 1;
    var head := prices[..n];
    if !Tally(Ok(found), paths[..n], head, threshold, initialAmount).Ok? {
      TallyError(found, paths[..n], head, threshold, initialAmount);
      var i :| 0 <= i < |head| && !head[i].Ok? && (forall j :: 0 <= j < i ==> head[j].Ok?) &&
        Tally(Ok(found), paths[..n], head, threshold, initialAmount) == Failure(head[i]);
      assert forall j :: 0 <= j <= i ==> head[j] == prices[j];
    } else {
      TallyOk(found, paths[..n], head, threshold, initialAmount);
      assert forall j :: 0 <= j < n ==> head[j] == prices[j];
    }
  }

  /** Every opportunity the search adds is the triple of a path priced above the threshold. */
  lemma {:induction false} TallySound(found: seq<Opportunity>, paths: seq<seq<Currency>>, prices: seq<Result<real>>, threshold: real, initialAmount: real)
    requires |prices| == |paths| && Tally(Ok(found), paths, prices, threshold, initialAmount).Ok?
    ensures var os := Tally(Ok(found), paths, prices, threshold, initialAmount).value;
      found <= os &&
      forall k :: |found| <= k < |os| ==> (os[k].profit > threshold && Scaled(os[k], initialAmount) &&
        exists i :: 0 <= i < |paths| && os[k].path == paths[i] && prices[i] == Ok(os[k].profit))
  {
    if paths != [] {
      var n := |paths| - 1;
      var mid := Tally(Ok(found), paths[..n], prices[..n], threshold, initialAmount);
      var os := Tally(Ok(found), paths, prices, threshold, initialAmount).value;
      TallySound(found, paths[..n], prices[..n], threshold, initialAmount);
      forall k | |found| <= k < |os|
        ensures exists i :: 0 <= i < |paths| && os[k].path == paths[i] && prices[i] == Ok(os[k].profit)
      {
        if k < |mid.value| {
          var i :| 0 <= i < n && os[k].path == paths[..n][i] && prices[..n][i] == Ok(os[k].profit);
          assert paths[i] == paths[..n][i] && prices[i] == prices[..n][i];
        } else {
          assert os[k].path == paths[n] && prices[n] == Ok(os[k].profit);
        }
      }
    }
  }

  /** Every price of a successful search is a value, and each path priced above the threshold
      has its triple among the results. */
  lemma {:induction false} TallyComplete(found: seq<Opportunity>, paths: seq<seq<Currency>>, prices: seq<Result<real>>, threshold: real, initialAmount: real)
    requires |prices| == |paths| && Tally(Ok(found), paths, prices, threshold, initialAmount).Ok?
    ensures var os := Tally(Ok(found), paths, prices, threshold, initialAmount).value;
      found <= os &&
      forall i :: 0 <= i < |paths| ==> (prices[i].Ok? &&
        (prices[i].value > threshold ==> Triple(paths[i], prices[i].value, initialAmount) in os))
  {
    if paths != [] {
      var n := |paths| - 1;
      var mid := Tally(Ok(found), paths[..n], prices[..n], threshold, initialAmount);
      var os := Tally(Ok(found), paths, prices, threshold, initialAmount).value;
      TallyComplete(found, paths[..n], prices[..n], threshold, initialAmount);
      assert mid.value <= os;
      forall i | 0 <= i < n
        ensures prices[i].Ok? && (prices[i].value > threshold ==> Triple(paths[i], prices[i].value, initialAmount) in os)
      {
        assert paths[..n][i] == paths[i] && prices[..n][i] == prices[i];
      }
    }
  }
}
