# DuckOracle decision core in Dafny

DuckOracle is a prediction-market front end. Its wallet, contract and AI-provider
plumbing surrounds a small core of TypeScript that actually decides things, and
this project models that core:

- **ChainGPT service utilities** (`src/hooks/chaingpt.ts`).
  - `aggregatePredictions` fuses several agents' predictions. It keeps the entries that are present and carry a numeric confidence. It weights each by `confidence/100`. The outcome is a strict weighted majority for `true`. The confidence is the rounded distance of the weighted probability from one half, scaled to 0–100.
  - `extractConfidence` scans free text with `/confidence[:\s]*(\d+)%/i` and defaults to 50.
  - `extractPrediction` classifies text as yes / no / unknown by plain substring tests.
  - `fallbackParsing` combines the two.
- **The `useChainGPT` hook** (`src/hooks/useChainGPT.ts`).
  - The fixed-value parse of a non-JSON answer.
  - The fusion of a technical and a sentiment analysis by averaging.
  - The mapping of an analysis to a BUY / AVOID recommendation.
- **The `useMarkets` hooks** (`src/hooks/useMarkets.ts`).
  - The `"<d>d <h>h"` / `"Expired"` countdown label.
  - The refresh that rewrites only that label on every market.
  - The mock market list.
  - The arguments sent to the contract's `createMarket`.

Modules: `Wrappers` (Option), `Text` (JavaScript string operations, decimal
printing and reading), `Numbers` (the finite/NaN/Infinity values the
aggregation can produce, `Math.round`), `ChainGPTService`, `UseChainGPT`,
`UseMarkets`.

`aggregatePredictions` runs a loop that updates accumulators. It is the method
`ChainGPTService.AggregatePredictions`, with a `while` loop and its invariants,
proved equal to the specification function `ChainGPTService.Aggregate`. The
properties the source promises are lemmas about that function. Everything else
in the core is single expressions, modelled as functions.

Modelling choices:

- Clocks are parameters (`now`, and the render time `created` of the mock list).
- Weights are exact reals.
- `Math.round(x)` is `floor(x + 0.5)`.
- `substring(0, n)` is the prefix of length `min(n, |s|)`.
- `toLowerCase` is ASCII lower-casing. This is exact for the words tested (yes, true, no, false): no other character lower-cases to one of their letters.
- The `/i` flag matches only ASCII letters against `confidence` in a non-Unicode regular expression, so ASCII lower-casing is exact there too.
- `\s` is JavaScript's full set of white-space and line-terminator characters.
- A total weight of zero gives JavaScript's `0/0 = NaN`, or ±Infinity when the weights cancel but the yes-weight does not. Both are modelled.

How the aggregation decides:

- The weights are `confidence/100` alone.
- An exact tie gives `outcome = false`.
- With no valid entry the code returns a fixed object; it does not fail.
- A zero total weight produces NaN.

The Solidity contracts the front end talks to (the oracle that holds shares and
volume, the token, the mock oracle) are not part of this model; only the
TypeScript hooks named above are.

Results the proofs bring out:

- A fallback text such as "Yes, I know" is uncertain for the service, because `know` contains `no` (`ExtractPredictionSubstrings`). The hook's own fallback calls the same text `true`, because it never looks for a negative word (`FallbackIgnoresNegation`).
- The literal `timeLeft` strings of the mock markets never reach the screen, because the first refresh replaces them.
- That refresh runs after the render that fixed the deadlines. Any delay of up to an hour therefore shows `14d 23h`, `2d 11h` and `44d 23h`. The same millisecond would give `15d 0h`, `2d 12h` and `45d 0h` (`InitialLabelsLater`, `InitialLabelsSameInstant`).

## Model

| member | source | states |
|---|---|---|
| `ChainGPTService.KeptMembers` | src/hooks/chaingpt.ts:388 | a prediction is kept exactly when it is the narrowed value of some entry that passes the filter; no more are kept than there are entries |
| `ChainGPTService.Narrow` | src/hooks/chaingpt.ts:388 | an entry passes the filter exactly when it is present and its confidence is a number; the kept value carries its outcome, confidence and reasoning |
| `ChainGPTService.KeptAppend` | src/hooks/chaingpt.ts:388 | filtering preserves input order: the filter of a concatenation is the concatenation of the filters |
| `ChainGPTService.KeptAll` | src/hooks/chaingpt.ts:388 | when every entry passes, all are kept one for one, in order |
| `ChainGPTService.DroppedEntry` | src/hooks/chaingpt.ts:388 | an entry failing the filter contributes nothing wherever it stands |
| `ChainGPTService.Aggregate` | src/hooks/chaingpt.ts:387-417 | the no-valid-predictions object is returned exactly when nothing is kept; otherwise `agentCount` is the number of kept entries |
| `ChainGPTService.Summarize` | src/hooks/chaingpt.ts:394-416 | a non-empty kept list always yields an aggregate whose `agentCount` is the number of kept predictions |
| `ChainGPTService.AggregatePredictions` | src/hooks/chaingpt.ts:387-417 | the loop's `totalWeight`, `weightedSum` and reasoning list equal the sums and items of the kept prefix, so the result is exactly the specified aggregate |
| `ChainGPTService.AggregateEmpty` | src/hooks/chaingpt.ts:390-392 | with no kept entry: outcome false, confidence 0, reasoning "No valid predictions" |
| `ChainGPTService.Items` | src/hooks/chaingpt.ts:403 | one `"<reasoning> (Confidence: <c>%)"` item per kept prediction, in input order |
| `ChainGPTService.YesWeightBounded` | src/hooks/chaingpt.ts:395-404 | with non-negative confidences, 0 <= weightedSum <= totalWeight |
| `ChainGPTService.TotalWeightPositive` | src/hooks/chaingpt.ts:395-401 | with non-negative confidences, one positive confidence makes the total weight positive |
| `ChainGPTService.FlipSums` | src/hooks/chaingpt.ts:399-402 | negating every outcome keeps the total weight and turns the yes-weight into total minus yes-weight |
| `ChainGPTService.AggregateOutcome` | src/hooks/chaingpt.ts:406-407 | with a positive total weight, outcome is true iff 2·weightedSum > totalWeight (strict weighted majority) |
| `ChainGPTService.AggregateTie` | src/hooks/chaingpt.ts:406-413 | an exact 0.5 tie gives outcome false, confidence 0, probability 50 |
| `ChainGPTService.AggregateInRange` | src/hooks/chaingpt.ts:406-413 | non-negative confidences with one positive: confidence and probability are integers in 0..100 |
| `ChainGPTService.AggregateZeroWeight` | src/hooks/chaingpt.ts:406-413 | kept entries all at confidence 0: outcome false, confidence and probability NaN (0/0) |
| `ChainGPTService.SummarizeFlip` | src/hooks/chaingpt.ts:406-408 | negating every outcome leaves the confidence unchanged and, with positive total, makes the outcome a strict majority for false |
| `ChainGPTService.SummarizeSingle` | src/hooks/chaingpt.ts:399-415 | one prediction with positive confidence: its own outcome, confidence 100, probability 100 or 0, its own item as reasoning |
| `ChainGPTService.ThreeAgentScenario` | src/hooks/chaingpt.ts:399-415 | true@90, true@60, false@80 give outcome true, probability 65, confidence 30, three agents |
| `ChainGPTService.MatchHereSound` | src/hooks/chaingpt.ts:441 | a match reported at the front of a text is a split into the keyword in any ASCII case, a run of `:`/white space, a non-empty digit group and `%`, and its value is that digit group's |
| `ChainGPTService.MatchHereComplete` | src/hooks/chaingpt.ts:441 | every such split of a text's front is the match reported, with its digit group's value: the greedy scan misses no match and finds no other |
| `ChainGPTService.FirstMatchLeftmost` | src/hooks/chaingpt.ts:441 | the reported match is the one at the leftmost position where the pattern matches; no report means no position matches |
| `ChainGPTService.ExtractConfidence` | src/hooks/chaingpt.ts:439-443 | the digits of the first match as a number, 50 when there is none |
| `ChainGPTService.NoPercentDefault` | src/hooks/chaingpt.ts:441-442 | a text without `%` always yields the default 50 |
| `ChainGPTService.MatchLabelled` | src/hooks/chaingpt.ts:441 | `Confidence: <digits>%` matches (mixed case, `:` and space skipped) with the digits' value |
| `ChainGPTService.ItemConfidenceRoundTrip` | src/hooks/chaingpt.ts:439-443 | the item written for a prediction reads back through the confidence scanner as its confidence, when the reasoning does not itself mention the keyword |
| `ChainGPTService.ExtractPrediction` | src/hooks/chaingpt.ts:445-453 | true iff the text mentions yes/true and not no/false; false for the mirror case; null when both or neither side matches |
| `ChainGPTService.ExtractPredictionIgnoresCase` | src/hooks/chaingpt.ts:447-448 | the classification does not depend on ASCII case |
| `ChainGPTService.ExtractPredictionSubstrings` | src/hooks/chaingpt.ts:447-452 | substring semantics: "I know" is false, "Yes, I know" is uncertain, "YES" is true |
| `ChainGPTService.FallbackParsing` | src/hooks/chaingpt.ts:455-466 | outcome true iff the classifier says true (null becomes false), probability equals confidence equals the scanned confidence, reasoning is at most 200 leading characters plus "..." |
| `Numbers.Round` | src/hooks/chaingpt.ts:408 | `Math.round` gives the integer within half a unit, halves rounded up |
| `Numbers.Divide` | src/hooks/chaingpt.ts:406 | a non-zero total gives the finite quotient q with q·total = weightedSum; a zero total never gives a finite value: NaN exactly when the numerator is 0, else an infinity of the numerator's sign |
| `Text.Contains` | src/hooks/chaingpt.ts:447-448 | `includes` holds iff the word occurs at some index |
| `Text.Prefix` | src/hooks/chaingpt.ts:465 | `substring(0, n)` is the prefix of length `min(n, |s|)` |
| `Text.DigitsRoundTrip` | src/hooks/chaingpt.ts:442 | `parseInt` of a printed natural number gives the number back |
| `UseChainGPT.FallbackAnalysis` | src/hooks/useChainGPT.ts:72-77 | outcome true iff the lower-cased content contains yes or true; confidence 75, probability 50; reasoning the first 200 characters, no ellipsis |
| `UseChainGPT.FallbackIgnoresNegation` | src/hooks/useChainGPT.ts:73 | a text with yes stays true when "no" is appended: negative words are never checked |
| `UseChainGPT.MultiAgent` | src/hooks/useChainGPT.ts:183-192 | the fused outcome is true iff the two probabilities sum to more than 100; fused confidence and probability are integers within half a unit of the two agents' means |
| `UseChainGPT.MultiAgentIgnoresOutcomes` | src/hooks/useChainGPT.ts:183-192 | the agents' own outcome fields do not influence the fused analysis |
| `UseChainGPT.MultiAgentSymmetric` | src/hooks/useChainGPT.ts:183-190 | swapping technical and sentiment leaves outcome, confidence and probability unchanged |
| `UseChainGPT.RoundedMeanBetween` | src/hooks/useChainGPT.ts:189-190 | the rounded mean of two integers lies between them |
| `UseChainGPT.MultiAgentBetween` | src/hooks/useChainGPT.ts:183-190 | for integer inputs, fused confidence and probability lie between the two inputs' min and max |
| `UseChainGPT.MultiAgentOutcomeMatchesProbability` | src/hooks/useChainGPT.ts:184-190 | for integer probabilities, the fused outcome is true iff the rounded probability exceeds 50 |
| `UseChainGPT.MultiAgentReasoning` | src/hooks/useChainGPT.ts:191 | the fused reasoning is exactly "Technical Analysis: ", the first min(100, length) characters of the technical reasoning, "... Sentiment Analysis: ", the same prefix of the sentiment reasoning, and "..." |
| `UseChainGPT.TradeRecommendation` | src/hooks/useChainGPT.ts:235-239 | BUY iff the analysis outcome is true, otherwise AVOID, never HOLD; expected return is the analysis probability |
| `UseMarkets.Split` | src/hooks/useMarkets.ts:121-122 | hours <= 23 and days·86,400,000 + hours·3,600,000 <= diff < days·86,400,000 + (hours+1)·3,600,000 |
| `UseMarkets.SplitUnique` | src/hooks/useMarkets.ts:121-122 | that bracket determines days and hours uniquely |
| `UseMarkets.CalculateTimeLeft` | src/hooks/useMarkets.ts:115-125 | "Expired" exactly when resolutionTime − now <= 0 |
| `UseMarkets.LabelRoundTrip` | src/hooks/useMarkets.ts:124 | the `<d>d <h>h` label reads back as its days and hours (no padding) |
| `UseMarkets.TimeLeftRoundTrip` | src/hooks/useMarkets.ts:115-125 | the label reads back as nothing when expired, otherwise as the days and leftover hours of the remaining span |
| `UseMarkets.DaysNonIncreasing` | src/hooks/useMarkets.ts:116-121 | a later clock never shows more days left |
| `UseMarkets.LabelWithin` | src/hooks/useMarkets.ts:115-125 | a positive remaining span bracketed by a countdown with at most 23 hours is shown as that countdown's label |
| `UseMarkets.RefreshTimeLeft` | src/hooks/useMarkets.ts:129-135 | the refresh keeps length, order and every field except `timeLeft`, which becomes the countdown at `now` |
| `UseMarkets.RefreshLatestWins` | src/hooks/useMarkets.ts:129-146 | refreshing twice equals refreshing once at the later clock |
| `UseMarkets.RefreshKeepsIds` | src/hooks/useMarkets.ts:130-134 | market ids stay in place |
| `UseMarkets.MockMarkets` | src/hooks/useMarkets.ts:76-113 | three mock markets whose deadlines lie 15, 2.5 and 45 days after the render clock |
| `UseMarkets.InitialLabelsSameInstant` | src/hooks/useMarkets.ts:76-142 | mock markets refreshed in the render's own millisecond show 15d 0h, 2d 12h, 45d 0h |
| `UseMarkets.InitialLabelsLater` | src/hooks/useMarkets.ts:76-142 | refreshed up to an hour after the render they show 14d 23h, 2d 11h, 44d 23h |
| `UseMarkets.DataSourceCode` | src/hooks/useMarkets.ts:177 | the code is 0 or 1, and 0 exactly for "onchain" |
| `UseMarkets.CreateMarketArgs` | src/hooks/useMarkets.ts:162-181 | no call without a configured address; otherwise question, criteria and stake pass through, and the data source is encoded. The resolution time is the current second plus 2,592,000: (rt − 2,592,000)·1000 <= now < (rt − 2,592,000 + 1)·1000 |

## Left out

- HTTP, `fetch`, axios and WebSocket calls to the AI provider, and the successful `JSON.parse` path: this is I/O. Only what is computed from a returned value is modelled. This covers `generateMarketAnalysis`, which only feeds its answer to the two extractors.
- Web3 initialisation, contract reads and writes, gas estimation with its `* 1.2` buffer, and the `writeContract` calls: these are foreign SDK calls with network side effects.
- `Promise.all` fan-out of the agent calls: this is concurrency. Only the aggregation over the resulting array or pair is modelled.
- The mock answer built from `Math.random` when no API key is set: it is nondeterministic demo data.
- TradeRecommendation: does not model the `risk` field, which is `Math.random` demo data.
- `parseEther`, `toWei` and `formatEther`: these are library conversions. `CreateMarketArgs` passes the stake text through unconverted.
- CreateMarketArgs: promises a call whenever an address is configured, but `parseEther(stake)` throws on stake text it cannot read, and then no call is made; that rejection is not modelled.
- Clock reads: the source calls `Date.now()` once per mock market and once per `calculateTimeLeft` call. The model reads one render clock `created` for the whole mock list and one clock `now` for a whole refresh, so it does not capture milliseconds passing between those reads.
- React state: `useState`, `setIsLoading`/`setError`, the `setInterval` timer and its cleanup. The refresh is modelled as a pure function of the list and the clock.
- All pages, modals, providers and wallet hooks: these are UI.
- Market pricing, share accounting, settlement and agent staking: the contracts that hold them are not part of this model. The unused confidence thresholds of the configuration file are left out too.
- JavaScript doubles: weights and averages are exact reals. IEEE rounding of sums like 0.1 + 0.2 could tip a near-tie that the model treats as exact.
- Prediction confidences are integer numbers. NaN, Infinity and fractional confidences in an entry are not modelled. Printing of numbers of 1e21 and more, which JavaScript writes in exponent form, is not modelled. `parseInt` precision beyond 2^53 is not modelled.
- Truthiness: `pred.outcome` is a boolean. Other truthy or falsy values are not modelled.
- The `catch` branch of `fallbackParsing`: it is reachable only when the content is not a string, and the model's content is always a string.
- Strings are sequences of characters, and lengths are counted in characters, not in UTF-16 code units. JavaScript's `substring(0, n)` counts code units, so for a text with characters outside the Basic Multilingual Plane (an emoji, say) among its first `n` units the model's prefix is longer: for 150 emoji followed by 100 `a`, JavaScript keeps 100 emoji of the first 200 units, the model 150 emoji and 50 `a`. This concerns `FallbackParsing`, `FallbackAnalysis` and `MultiAgent`.
- `calculateTimeLeft` takes integer milliseconds. Fractional times are not modelled.
