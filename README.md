# PCR option signals: a Dafny model

This project models the signal logic of `option_signals.py`. That file holds
the put-call-ratio (PCR) signal generator of an NSE option-chain analyzer.
For one symbol:

1. `SignalGenerator.analyze_option_chain` takes the raw option-chain payload.
   It picks the first listed expiry and keeps only the strike entries of that
   expiry. The entries come from `filtered.data`, or from the top-level `data`
   list when `filtered.data` is empty.
2. `SignalGenerator.generate_signals` totals call ("CE") and put ("PE") open
   interest over those entries. The PCR is put OI divided by call OI, and
   exactly 1 when call OI is not positive. It compares the PCR with the fixed
   thresholds 1.3, 1.1, 0.7 and 0.9, and emits at most one signal: STRONG BUY
   or BUY on a call, or STRONG BUY or BUY on a put.
3. `SignalGenerator.select_strike` chooses the strike. A call takes the strike
   strictly above spot that is nearest 1.01 × spot, or else the highest strike.
   A put applies `max` with the key `abs(x - 0.99 × spot)` to the strikes
   strictly below spot, so it takes the strike FARTHEST from its target, or
   else the lowest strike. The model keeps this as written.
4. `LiveOptionTradingSystem.format_signals` ranks the collected signals.
   The order is strength first (STRONG BUY = 2, BUY = 1), then the stored PCR,
   both descending.

Layout, one module per file:

- `wrappers.dfy` (`Wrappers`): `Option`.
- `payload.dfy` (`Payload`): the payload. Every key the code reads is an
  `Option`, with `None` meaning "missing". Also the expiry filter and the
  `None` cases of `analyze_option_chain`.
- `ordering.dfy` (`Ordering`): the list primitives `select_strike` uses.
  These are `sorted`, a filtering comprehension, and `min`/`max` with and
  without a key. `min`/`max` scan left to right and keep the first best
  element, as CPython's builtins do.
- `rounding.dfy` (`Rounding`): `round(x, 2)` on the exact value, with ties
  going to the even hundredth. The stored `pcr` column is rounded, and
  `format_signals` sorts on that column, so the rounding affects the order.
- `strike_selection.dfy` (`StrikeSelection`): `select_strike`. The method
  `SelectStrike` has the collecting loop. It is proved equal to the function
  `StrikeFor`, and the lemmas characterise that function.
- `signal_generator.dfy` (`SignalGenerator`): open-interest totals, PCR and
  classification. The method `GenerateSignals` has the totalling loop and is
  proved equal to the function `SignalsFor`. The method `AnalyzeOptionChain`
  models `analyze_option_chain`.
- `ranking.dfy` (`Ranking`): the ordering step of `format_signals`. It is a
  stable insertion sort. The pandas two-column `sort_values` goes through a
  stable lexicographic sort, so rows that tie on both keys keep their input
  order.

Numbers are Dafny `real`. Comparisons and ratios are exact.

Two consequences of the code worth stating: an expiry with no entries gives
an empty signal list rather than `None`, and with no positive call open
interest the PCR is 1, which never produces a signal.

## Model

| member | source | states |
|---|---|---|
| `Payload.ForExpiry` | option_signals.py:69-70 | The filter keeps exactly the entries whose `expiryDate` is the given expiry, each with its original multiplicity, and drops every other entry. |
| `Payload.SourceEntries` | option_signals.py:65-67 | No contract of its own: the choice of `filtered.data`, falling back to `data` when it is empty, is stated through `Payload.Normalize`. |
| `Payload.Normalize` | option_signals.py:51-76 | `None` exactly when the payload is missing, or lacks `records`, `underlyingValue` or `expiryDates`, or has an empty expiry list. Otherwise it gives the spot price and the first expiry. Its entries are exactly the entries of `filtered.data`, or of the top-level `data` when `filtered.data` is empty, that carry that expiry, each with its original multiplicity. |
| `SignalGenerator.AnalyzeOptionChain` | option_signals.py:51-76 | Returns `None` under exactly the missing-key conditions above. Otherwise it returns the signals `generate_signals` computes for the first expiry's entries and spot price, at most one of them. |
| `SignalGenerator.GenerateSignals` | option_signals.py:78-161 | The loop keeps its four running totals equal to the totals of the entries seen so far. The result equals `SignalsFor` for the same inputs. |
| `SignalGenerator.ChainTotals` | option_signals.py:86-97 | No contract of its own: the totals are characterised by `SignalGenerator.ChainTotalsAppend` and `SignalGenerator.ChainOpenInterestNonNegative`, and the loop of `SignalGenerator.GenerateSignals` is proved to compute them. |
| `SignalGenerator.ChainTotalsAppend` | option_signals.py:86-97 | The totals of a concatenation are the sums of the totals of its parts. An entry adds its legs' `openInterest` and `totalTradedVolume`, with 0 for a missing leg or key. |
| `SignalGenerator.ChainOpenInterestNonNegative` | option_signals.py:86-100 | When every leg's open interest is non-negative, so are both totals and the PCR. |
| `SignalGenerator.Pcr` | option_signals.py:100 | With positive call OI, PCR × call OI = put OI. Otherwise the PCR is exactly 1. |
| `SignalGenerator.Classify` | option_signals.py:105-159 | No contract of its own: the five bands are stated by `SignalGenerator.ClassifyBands`. |
| `SignalGenerator.ClassifyBands` | option_signals.py:104-159 | The classification partitions the PCR axis. Above 1.3 gives STRONG BUY on CE. Above 1.1 up to 1.3 gives BUY on CE. Below 0.7 gives STRONG BUY on PE. From 0.7 to below 0.9 gives BUY on PE. From 0.9 to 1.1, both included, gives no signal. The side is CE exactly when PCR > 1.1. |
| `SignalGenerator.SignalsFor` | option_signals.py:80-161 | No contract of its own: the signal list is characterised by `SignalGenerator.SignalShape` and `SignalGenerator.NoCallInterestNoSignal`. |
| `SignalGenerator.SignalShape` | option_signals.py:80-161 | No entries gives no signal, and otherwise there is at most one. There is exactly one when the PCR is outside the neutral band and some entry has a truthy strike. That signal carries the branch's side, strength and reason. Its strike is the one `select_strike` returns for that same side, and is one of the collected strikes. Its price and PCR are the rounded values. |
| `SignalGenerator.NoCallInterestNoSignal` | option_signals.py:100-159 | Without positive call open interest no signal is ever produced, because the PCR of 1 is neutral. |
| `StrikeSelection.Strikes` | option_signals.py:166-170 | The collected list has no 0. Every element is the `strikePrice` of some entry, and every entry's truthy strike is in it. |
| `StrikeSelection.SelectStrike` | option_signals.py:163-197 | The collecting loop builds exactly `Strikes(entries)`, and the result equals `StrikeFor`. |
| `StrikeSelection.StrikeFor` | option_signals.py:163-197 | No contract of its own: characterised by `StrikeSelection.NoneIffNoTruthyStrike`, `StrikeSelection.ResultIsCollectedStrike`, `StrikeSelection.CallStrike` and `StrikeSelection.PutStrike`. |
| `StrikeSelection.NoneIffNoTruthyStrike` | option_signals.py:166-173 | `select_strike` returns `None` exactly when no entry has a truthy strike. |
| `StrikeSelection.ResultIsCollectedStrike` | option_signals.py:166-193 | A returned strike is one of the collected strikes, and so never 0. |
| `StrikeSelection.PickIsMember` | option_signals.py:178-193 | The element picked from the sorted list is one of its elements, on either side. |
| `StrikeSelection.Pick` | option_signals.py:175-193 | No contract of its own: characterised by `StrikeSelection.PickIsMember`, `StrikeSelection.PickCall` and `StrikeSelection.PickPut`. |
| `StrikeSelection.PickCall` | option_signals.py:178-184 | On a sorted list the pick is one of its elements. If some strike is above spot, the pick is above spot, no strike above spot is nearer the call target, and a tie goes to the smaller strike. Otherwise the pick is the maximum. |
| `StrikeSelection.PickPut` | option_signals.py:187-193 | On a sorted list the pick is one of its elements. If some strike is below spot, the pick is below spot, no strike below spot is farther from the put target, and a tie goes to the smaller strike. Otherwise the pick is the minimum. |
| `StrikeSelection.CallStrike` | option_signals.py:175-184 | The same call-side characterisation over the collected strikes of the entries, the result being one of them. |
| `StrikeSelection.PutStrike` | option_signals.py:175-193 | The same put-side characterisation over the collected strikes of the entries, the result being one of them. |
| `StrikeSelection.ExampleStrikes` | option_signals.py:166-175 | For entries with strikes 98, 90, 0 and 103, the loop collects 98, 90, 103 and sorting gives 90, 98, 103. |
| `StrikeSelection.CallExample` | option_signals.py:178-182 | With spot 100 and those entries, the call strike is 103. |
| `StrikeSelection.PutExample` | option_signals.py:187-191 | With spot 100 and those entries, the put strike is 90, not the nearer 98. |
| `Ordering.InsertAsc` | option_signals.py:175 | Inserting into an ascending list keeps it ascending and adds exactly one occurrence of the element. |
| `Ordering.SortAsc` | option_signals.py:175 | `sorted` gives an ascending permutation of its input. |
| `Ordering.Filter` | option_signals.py:180-189 | The comprehension keeps exactly the elements that meet the condition, and keeps an ascending list ascending. |
| `Ordering.FirstMinIndex` | option_signals.py:182-193 | `min` with a key picks an element whose key is least, and every earlier element has a strictly greater key. |
| `Ordering.FirstMaxIndex` | option_signals.py:184-191 | `max` with a key picks an element whose key is greatest, and every earlier element has a strictly smaller key. |
| `Rounding.Round2` | option_signals.py:113-114 | `round(x, 2)` lies on the hundredths grid, within half a hundredth of `x`, and an exact tie goes to the even hundredth. |
| `Rounding.Round2Monotone` | option_signals.py:114 | Rounding preserves order. Ranking on the rounded PCR can merge neighbours into ties but never reverses two signals. |
| `Rounding.Round2Idempotent` | option_signals.py:114 | Rounding a rounded value changes nothing. |
| `Ranking.StrengthScore` | option_signals.py:238-239 | STRONG BUY scores 2 and BUY scores 1. |
| `Ranking.Insert` | option_signals.py:240 | Inserting a signal adds exactly that signal to the multiset. |
| `Ranking.InsertRanked` | option_signals.py:240 | Inserting into a ranked list keeps it ranked. |
| `Ranking.RankSignals` | option_signals.py:229-240 | The output is a permutation of the input, so empty input gives empty output. It is ordered by strength descending, then by stored PCR descending. |
| `Ranking.InsertPeers` | option_signals.py:240 | Inserting a signal puts it ahead of the signals that tie with it and keeps their relative order. |
| `Ranking.RankSignalsStable` | option_signals.py:240 | Stability: for every class of signals that tie on both keys, the ranked output lists them in input order. |
| `Ranking.RankSignalsIdempotent` | option_signals.py:240 | Ranking an already ranked list returns it unchanged. |

## Left out

- `OptionChainAnalyzer.fetch_option_chain`, `LiveOptionTradingSystem.run_analysis` and `main` are left out: HTTP session and cookies, `time.sleep`, printing and CSV files. The payload is a parameter of `AnalyzeOptionChain`.
- The log line of `generate_signals` (option_signals.py:102) is left out. The call and put volume totals are computed by the code and used nowhere, not even in that line; the model computes them likewise.
- `format_signals` is modelled as the row order only. The wall-clock `timestamp` column, the column projection and the DataFrame itself are left out.
- The `reason` text is a tag (`Reason`) naming the branch. Its f-string formatting of the PCR is presentation.
- Floating point is not modelled. Prices, open interest and the PCR are exact reals, so float error could give a different result at a threshold or an exact strike-distance tie.
- A JSON `null` in some places is modelled, because the code treats it like a missing key: a `null` `strikePrice` is skipped by `if strike_price:`, and a `null` `CE`/`PE` leg is skipped by the `is not None` test.
- Some other `null`s and non-numeric values are not modelled. They make `generate_signals` or the expiry filter raise, and the handler of `analyze_option_chain` (option_signals.py:74-76) returns `None`. These are a `null` or non-numeric `openInterest` or `totalTradedVolume`, a `null` `filtered`, and a top-level `"data": null` when `filtered.data` is empty. For the last one, the model reads the value as absent and gives `Some([])`.
- A `null` or non-numeric `underlyingValue` and a non-numeric truthy `strikePrice` are not modelled. The code raises only inside `select_strike` (option_signals.py:175-189). That function's own handler returns `None`, so the code drops the signal and returns `[]`, and it returns `[]` anyway when the PCR is neutral. The model has no `null` spot: it reads a `null` `underlyingValue` as missing and returns `None`.
- A `null` first element of `expiryDates` is not modelled: the code would then keep the entries that have no `expiryDate`.
- The unused `signals` attribute of `SignalGenerator` is left out, so the model has no class: no method of the core changes object state.
- The dashboard, the Flask backend, the data fetcher, the rate limiter and the pandas indicator helpers are not part of this model.
