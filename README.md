# Currency-arbitrage detection engine, modelled in Dafny

The system scans a snapshot of foreign-exchange quotes for arbitrage cycles. A cycle is a
sequence of conversions that starts and ends in the same currency and returns more than it
started with. The engine has three parts, all in `main.py`:

- **Pricing one cycle** (`calculate_arbitrage`). An amount is carried around the path one
  hop at a time. For hop `from -> to`, a directly quoted pair `from/to` multiplies the
  amount by its bid net of the fee. Otherwise the amount is divided by the ask, grossed up
  by the fee, of the reverse pair `to/from`. When neither key exists, the lookup of the
  reverse key raises `KeyError`. The result is the final amount over the initial one, less
  one.
- **Enumerating cycles** (`find_arbitrage_opportunities`). For lengths 3, 4 and 5, every
  ordered selection of distinct currencies from a fixed list of ten is taken, in the order
  of `itertools.permutations`. Each selection is closed by repeating its first currency.
- **Filtering and ranking.** A cycle whose profit is strictly above the threshold becomes
  the triple `(path, profit, profit * initial_amount)`. The triples are sorted by profit,
  largest first, with Python's stable `sorted(..., reverse=True)`.

The rate table is a `map` from ordered currency pairs to quotes. The pair `(base, quote)`
stands for the string key `"base/quote"`. Quotes are exact `real`s with a positive bid and
ask. Because of that, fee monotonicity and independence from the initial amount are exact
theorems here.

The modules follow the program's structure:

- `Arith`: lemmas about real arithmetic.
- `Rates`: quotes, the spread helper, and hop resolution.
- `Profit`: the pricing loop.
- `Enumeration`: `itertools.permutations` and cycle closing.
- `Ranking`: the stable descending sort.
- `Opportunities`: the search loops and the constants.

Every loop of `calculate_arbitrage` and `find_arbitrage_opportunities` is a `method` proved
against a specification function:

- `CalculateArbitrage` against `Arbitrage`;
- `PriceSelections` against `Collect`;
- `PriceLength` against `Searched`;
- `SearchCycles` and `FindArbitrageOpportunities` against `Ranked`.

The properties main.py promises are lemmas about those functions.

Errors are values of `Result`, never preconditions:

- `KeyError(key)` is the uncaught lookup failure. It carries the reverse key main.py
  looks up last.
- `ZeroDivision` is the final division by a zero initial amount.

Neither error is absorbed by the caller. The first cycle, in enumeration order, that raises
ends the whole search with its error, as the uncaught exception does in main.py.

The code does not do the following, and neither does the model:

- Apply `(1 - fee)` on the reverse branch. That branch divides by `ask * (1 + fee)` only
  (main.py:40).
- Skip a path with a pair missing in both directions. Such a path raises `KeyError`, which
  ends the search (main.py:40).
- Break ties in profit by path. There is no tie-break key: ties keep enumeration order,
  because the sort is stable (main.py:54). So shorter cycles come first (main.py:47), and
  within one length the order of `itertools.permutations` over the currency list applies
  (main.py:44, 48). `Opportunities.RankedTiesByLength` proves the first part.
- Group the results by cycle length. They form one list (main.py:54).

## Model

| member | source | states |
|---|---|---|
| Rates.Spread | main.py:20 | for a positive bid and ask, the spread lies strictly between -2 and 2; it is positive exactly when ask > bid, and zero exactly when they are equal |
| Rates.QuoteOf | main.py:19-25 | a table entry is recorded exactly when bid and ask are both nonzero and their midpoint is nonzero; it keeps the fetched bid and ask; its spread is in [0, 2) when ask >= bid > 0; for a positive bid and ask the stored spread is positive exactly when ask > bid and zero exactly when they are equal |
| Rates.Resolve | main.py:36-40 | a hop resolves exactly when the pair is quoted in either direction; otherwise it fails with KeyError on the reverse key (to, from); positive quotes give a positive conversion |
| Rates.ResolvePrecedence | main.py:36-40 | unfolds `Resolve` one step, as a bridge lemma: a present direct key decides the hop (sell at its bid), whatever the reverse key holds; the reverse ask is used exactly when the direct key is absent and the reverse present |
| Rates.FactorAgainstRawRate | main.py:38-40 | with fee 0 a hop's factor is its raw rate (bid, or 1/ask); any valid fee never raises it |
| Rates.FactorFeeMonotone | main.py:38-40 | a larger fee never gives a larger hop factor, on either branch |
| Rates.FactorPositive | main.py:38-40 | every hop keeps a positive amount positive |
| Profit.ConversionsOutcome | main.py:35-40 | the hop conversions of a path exist exactly when every hop is quoted; each is the resolution of its hop; otherwise the failure is the KeyError of the first unquoted hop |
| Profit.FailurePersists | main.py:35-40 | once a hop fails, every later prefix fails with the same KeyError |
| Profit.PathProfitOutcome | main.py:33-41 | a path's profit is defined exactly when all hops are quoted, else it is the KeyError of the first unquoted hop |
| Profit.CompoundScales | main.py:34-40 | the amount after the hops is the initial amount times the product of the hop factors, so the profit does not depend on the initial amount |
| Profit.ApplyScales | main.py:38-40 | multiplying by the net bid, or dividing by the gross ask, scales the amount by that hop's factor |
| Profit.ArbitrageOutcome | main.py:33-41 | for a nonzero initial amount the result is the path's profit, whatever that amount; Ok exactly when the amount is nonzero and all hops are quoted; ZeroDivision exactly for a zero amount on a fully quoted path; KeyError exactly when a hop is unquoted, with the reverse key of the first such hop |
| Profit.CalculateArbitrage | main.py:33-41 | the loop returns exactly the specified outcome of the path: profit, KeyError or ZeroDivision |
| Profit.ConvertHop | main.py:36-40 | one loop step: the amount is multiplied by the net bid or divided by the gross ask, and the loop state stays consistent; a hop quoted in neither direction gives the path's KeyError on the reverse key |
| Profit.SellStep | main.py:37-38 | a directly quoted hop extends the loop state by selling at the bid |
| Profit.BuyStep | main.py:39-40 | a hop quoted only in reverse extends the loop state by buying back at the ask |
| Profit.StopStep | main.py:39-40 | a hop quoted in neither direction makes the whole path fail with KeyError (to, from) |
| Profit.FinishLoop | main.py:41 | after the last hop the result is amount / initial - 1, or ZeroDivision for a zero initial amount |
| Profit.MultiplierFeeMonotone | main.py:38-40 | the product of the hop factors does not increase with the fee |
| Profit.MultiplierPositive | main.py:38-40 | the product of positive hop factors is positive |
| Profit.PathProfitFeeMonotone | main.py:33-41 | for 0 <= f1 <= f2 < 1 the profit at f1 is at least the profit at f2; the fee never changes whether the path fails, or with which KeyError |
| Profit.ZeroFeeMultiplier | main.py:38-40 | with no fee the compounded factor is the product of the raw rates |
| Profit.RoundTripConversions | main.py:36-40 | the round trip A -> B -> A over a single direct quote A/B sells at its bid and then buys back at its ask |
| Profit.SpreadRoundTrip | main.py:33-41 | that round trip with fee 0 yields bid/ask - 1, and it loses money at every fee whenever ask > bid |
| Enumeration.RemoveAtMembers | main.py:48 | dropping one element of the pool keeps the others and, in a pool without repeats, removes that element |
| Enumeration.PermutationShape | main.py:48 | every k-permutation has k elements drawn from the pool, with no repeats when the pool has none |
| Enumeration.PermutationComplete | main.py:48 | every sequence of k distinct elements drawn from the pool is among its k-permutations |
| Enumeration.PermutationsDistinct | main.py:48 | over a pool without repeats, no k-permutation is listed twice |
| Enumeration.PermutationsExample | main.py:48 | on the pool [1, 2, 3] with k = 2 the order is by the pool index of the first element, then of the second, as itertools.permutations gives |
| Enumeration.PrependAllMember | main.py:48 | unfolds `PrependAll`, as a bridge lemma: each sequence it builds is x in front of a sequence of ps |
| Enumeration.PermutationLengths | main.py:48 | every k-permutation has length k |
| Enumeration.CyclesBelowNext | main.py:47-49 | unfolds `CyclesBelow` one step, as a bridge lemma: each further length appends its closed permutations after all the shorter cycles |
| Enumeration.CyclesSound | main.py:47-49 | over a pool without repeats, every enumerated path has 4 to 6 elements, ends with its first, and its other elements are distinct currencies of the pool |
| Enumeration.CyclesComplete | main.py:47-49 | every such closed path of 3 to 5 distinct pool currencies is enumerated |
| Enumeration.CyclesDistinct | main.py:47-49 | over a pool without repeats, each cycle is enumerated exactly once |
| Enumeration.CyclesOrdered | main.py:47-49 | the cycles come in non-decreasing length: shorter lengths first |
| Enumeration.ShorterFirst | main.py:47-49 | no cycle of a shorter length is among the closed permutations of a longer one |
| Ranking.InsertByProfitMultiset | main.py:54 | inserting adds exactly the inserted triple |
| Ranking.InsertByProfitSorted | main.py:54 | inserting keeps a profit-descending sequence sorted |
| Ranking.InsertByProfitStable | main.py:54 | an inserted triple goes after every triple of equal profit |
| Ranking.SortByProfitSorted | main.py:54 | the ranked triples are sorted by profit, largest first |
| Ranking.SortByProfitPermutes | main.py:54 | the ranked triples are a permutation of the filtered ones |
| Ranking.WithProfitLengthOrdered | main.py:54 | the triples of one profit are taken from the sequence in order, so they keep its order of path lengths |
| Ranking.SortByProfitStable | main.py:54 | for every profit value, the triples of that profit keep their enumeration order |
| Opportunities.FindArbitrageOpportunities | main.py:43-54 | the search over main.py's ten currencies, with fee 0 and threshold 0.001, returns exactly the specified ranked outcome; RankedFailure, RankedOrder, RankedSound and RankedComplete, with CurrenciesDistinct, give its meaning |
| Opportunities.SearchCycles | main.py:43-54 | the nested loops and the final sort compute the specified ranked outcome for any currency list, fee and threshold |
| Opportunities.PriceLength | main.py:47-52 | one pass of the outer loop extends the search to the next length |
| Opportunities.PriceSelections | main.py:48-52 | the inner loop prices the closed selections in order after the triples already found, and stops at the first pricing error |
| Opportunities.PricePath | main.py:49-52 | one closed path is priced; a profit strictly above the threshold appends (path, profit, profit * initial amount); an error becomes the search's error |
| Opportunities.CurrenciesDistinct | main.py:44 | the ten currencies of the search are pairwise different |
| Opportunities.SearchedCollect | main.py:47-52 | the search length by length is the search over all cycles below that length, in enumeration order |
| Opportunities.SearchedFailed | main.py:47-52 | a search that has failed keeps the same error through every later length |
| Opportunities.CollectConcat | main.py:48-52 | pricing a + b is pricing a, then b |
| Opportunities.CollectFailed | main.py:48-52 | a failed search stays failed, with the same error |
| Opportunities.CollectOk | main.py:48-52 | the search over a list of paths succeeds exactly when every path prices without error |
| Opportunities.CollectError | main.py:48-52 | a failed search reports the error of the first path whose pricing fails, and every earlier path priced without error |
| Opportunities.CollectSound | main.py:48-52 | every added triple belongs to a searched path, carries exactly its profit, which is strictly above the threshold, and profit times the initial amount |
| Opportunities.CollectComplete | main.py:48-52 | after a successful search, every path above the threshold has its triple in the result |
| Opportunities.RankedCollect | main.py:47-54 | the ranked outcome is the stable sort of the search over the full enumeration of cycles |
| Opportunities.RankedOrder | main.py:54 | the ranked triples are sorted, a permutation of the filtered triples, and stable for every profit value |
| Opportunities.RankedSound | main.py:47-54 | every ranked triple is an enumerated cycle (a cycle of 3 to 5 distinct pool currencies when the pool has no repeats) priced to exactly its profit, which is strictly above the threshold, with profit times the initial amount |
| Opportunities.RankedComplete | main.py:47-54 | after a successful search every cycle was priced without error, and every cycle strictly above the threshold has its triple among the ranked results |
| Opportunities.RankedFailure | main.py:47-54 | the search succeeds exactly when every enumerated cycle prices without error; otherwise it reports the error of the first failing cycle in enumeration order |
| Opportunities.CollectLengthOrdered | main.py:47-52 | pricing paths of non-decreasing length yields triples of non-decreasing path length, each for one of the paths |
| Opportunities.RankedTiesByLength | main.py:47-54 | among the ranked triples of any one profit, shorter cycles come first |
| Opportunities.MissingPairAborts | main.py:40-52 | for a nonzero initial amount, a cycle with a hop quoted in neither direction makes the whole search fail with KeyError |
| Opportunities.FullTableSucceeds | main.py:36-52 | over a pool without repeats where every pair of distinct currencies is quoted in some direction, the search succeeds for any nonzero initial amount |

## Left out

- `get_exchange_rates` (main.py:8-31) fetches quotes over the network, catches exceptions
  and prints. That is I/O. Only the per-pair entry it records is modelled, as
  `Rates.QuoteOf`: the truthiness test on bid and ask, a zero midpoint whose division error
  is swallowed, and the spread.
- `main()` (main.py:56-79) only prints reports, including the top-ten printout. It is
  presentation.
- `test.py` downloads market data and trains forecasting models. It is foreign-library
  numerics with no contract to state, and it is not part of this model.
- Floating point is not modelled. Amounts, quotes, fees and profits are exact `real`s, so
  rounding effects (for example a profit landing just on the threshold) are not captured.
- Rates.PositiveQuotes: the model assumes every stored quote has a positive bid and ask. The
  `if bid and ask` test at main.py:19 excludes only zero, so a negative quote from the data
  source is not modelled.
- Without `PositiveQuotes`, a non-positive ask on the reverse branch could make the
  division at main.py:40 fail. That case is excluded by the same assumption.
- Rates.ValidFee: the fee is a parameter with 0 <= fee < 1. main.py fixes it at 0.0
  (main.py:5). The threshold is a parameter too, fixed at 0.001 (main.py:6); main.py's
  own values are the constants `Opportunities.BrokerFeePercentage` and
  `Opportunities.MinimumProfitThreshold`.
- Python's default `initial_amount=100000` is the constant
  `Opportunities.DefaultInitialAmount`. The model takes the amount as an argument.
- Rate-table keys are ordered pairs rather than the formatted strings `"base/quote"`. The
  formatting is injective for three-letter codes without `/`, so lookups agree.
- The two nested loops of the search and the body of the pricing loop are separate helper
  methods (`PriceLength`, `PriceSelections`, `PricePath`, `ConvertHop`). The statements are
  the same as in main.py.
- main.py's exception exit from the middle of the nested loops is modelled as a
  `Result` error. The inner loop returns as soon as a path fails. The outer loop's guard
  stops once an error has been recorded.
- `itertools.permutations` and `sorted` are library calls. Here they are the functions
  `Enumeration.Permutations` (the same recursive order) and `Ranking.SortByProfit` (a
  stable insertion sort). Their results are specified, not their running time.
