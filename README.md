# centiment, modelled in Dafny

centiment searches Twitter for the tweets about a set of configured topics. It
scores each tweet's sentiment with Google's Natural Language API. It then saves
one aggregated `Sentiment` per topic to Firestore: the number of tweets, the
mean score, the sample variance and standard deviation, and the newest tweet ID
seen, which is the checkpoint for the next search.

This project models the logic between those services:

- **Search setup** (`NewSearcher`, `getLastSeenID`, `SearchTerm.buildQuery`).
  NewSearcher validates the terms and `minResults`. getLastSeenID looks up a
  topic's checkpoint by its slug. buildQuery trims the query.
- **The fetch loop** (`search`, `search.go`). It pages backwards through the
  results with a cursor at the lowest tweet ID seen. Every status counts as
  seen. A status is emitted only if its creation time parses and it is no older
  than `maxAge`. The loop goes on while its condition holds, and stops early
  when the context is done or the API fails.
- **The aggregator** (`Aggregator.Run`, `updateAggregate`, `updateAverage`,
  `updateVariance`, `populateWithSearch`, `finalize`). It folds the stream of
  analysed results into one Sentiment per topic with Welford's running mean and
  sum of squared deviations. It then finalises every topic and saves it, and a
  failed save loses only that topic.
- **Search-term validation** (`parseSearchTerms`). Every topic and every query
  in the search file must have at least three runes.

Modules follow the source files:

| module | file | models |
|---|---|---|
| `Wrappers` | `wrappers.dfy` | Go's (value, error) returns and nil values |
| `GoStrings` | `go_strings.dfy` | `strings.TrimSpace`, `strings.ToLower` and `unicode.IsSpace` |
| `Terms` | `terms.dfy` | `SearchTerm`, `buildQuery` and `int64` |
| `Store` | `store.dfy` | `store.go`: the `Sentiment` class, `populateWithSearch`, `finalize`, the error values, and the outcome of `GetSentimentsBySlug` |
| `Stats` | `stats.dfy` | `updateAverage` and `updateVariance`, and the proof that folding with them gives the exact mean and sum of squared deviations in any order |
| `Aggregate` | `aggregate.dfy` | `aggregate.go` |
| `Search` | `search.dfy` | `search.go` |
| `Config` | `config.dfy` | the validation in `cmd/centimentd/config.go` |

How things outside the code are modelled:

- **Twitter and the cancellation context** are a script of `Step`s. Each step is
  what one iteration of the fetch loop meets: the context is done, the search
  call fails, or a page of statuses comes back.
- **The result channel** is the sequence `out`, to which each emitted
  `SearchResult` is appended.
- **Calls into other libraries** are parameters: `slug.Make` (`makeSlug`),
  `slug.IsSlug` (`isSlug`), `math.Sqrt` on non-negative reals (`root`),
  `time.Now` (`now` for one finalize; `clock(i)` for the i-th finalize of a run,
  since the source reads the clock anew for every topic) and the store's lookup (`lookup`).
- **Saves** that fail are the topics in `failing`.
- **The age** of a status (`time.Since` of its creation time) is a field of the
  status.
- **Float64** is `Finite(real) | NotFinite`. `finalize` on a single sample
  divides 0 by 0, and that NaN is kept.
- **The order** in which Go ranges over a map is the verifier's choice (`:|`).
  The contracts hold for every order.

Where the code and the documented design disagree, the model follows the code:

- **The loop condition** of `search` does not give up; see Findings.
- **The length check** in `parseSearchTerms` accepts exactly three runes,
  although its error message says "> 3".
- **A single sample**: the design computes no variance when the count is 1,
  but the code finalises every topic and saves it
  (aggregate.go:49-51), and finalize divides 0 by 0 (store.go:62), so the saved
  variance and standard deviation are NaN.
- **An empty page** does not end the loop. With nothing seen or collected,
  the next request is the same one again (search.go:199-205, 213-246), under
  the code's condition and the comment's rule alike; see Findings.
- **The variance figure** of the design's four-score example (0.5, −0.2, 0.1,
  0.9) is given as about 0.227. The Bessel-corrected sample variance that the
  code computes is 0.6875 / 3, about 0.229 (Aggregate.FourScoresSaved).

## Model

| member | source | states |
|---|---|---|
| GoStrings.TrimSpaceTrims | search.go:31 | TrimSpace(s) is a slice s[i..j]: only white space lies outside it, and it neither starts nor ends with white space |
| GoStrings.IsSpace | search.go:31 | the white space TrimSpace removes: the code points with Unicode's White_Space property |
| GoStrings.TrimSpace | search.go:31 | TrimRight after TrimLeft; what it removes is stated by TrimSpaceTrims |
| GoStrings.TrimSpaceIdempotent | search.go:31 | trimming a trimmed string changes nothing |
| GoStrings.TrimLeftSpec | search.go:31 | TrimLeft keeps a suffix that does not start with white space and drops only white space |
| GoStrings.TrimRightSpec | search.go:31 | TrimRight keeps a prefix that does not end with white space and drops only white space |
| GoStrings.LowerRune | store.go:55 | an upper-case ASCII or Latin-1 letter (A–Z, U+00C0–U+00DE except U+00D7) becomes its lower-case letter (+32); every other code point is unchanged |
| GoStrings.ToLower | store.go:55 | LowerRune applied to every code point, one for one |
| Terms.BuildQuery | search.go:30-33 | the term's query becomes the trimmed query, which is what is returned; the topic is kept |
| Terms.BuildQueryIdempotent | search.go:30-33 | building the query of a built term changes nothing |
| Store.Sentiment.constructor | aggregate.go:34-36 | a new Sentiment holds the zero record |
| Store.Sentiment.PopulateWithSearch | store.go:54-58 | the topic becomes the lower-cased, trimmed topic of the term; the query is the term's query verbatim; no other field changes |
| Store.Populated | store.go:54-58 | the value form of populateWithSearch: topic and query as above, every other field unchanged |
| Store.PopulateIdempotent | store.go:54-58 | populating twice with one term gives the same record as populating once |
| Store.NormalizeTopicIdempotent | store.go:55 | a normalised topic normalises to itself |
| Store.NormalizeTopic | store.go:55 | the stored topic: ToLower, then TrimSpace |
| Store.Quotient | store.go:62 | float64 division by the converted count − 1; a zero divisor or a non-finite dividend gives a non-finite value |
| Store.SquareRoot | store.go:63 | `math.Sqrt`: the root of a finite non-negative value, non-finite otherwise |
| Store.Sentiment.Finalize | store.go:61-66 | the new state is Finalized of the old state |
| Store.Finalized | store.go:61-66 | the variance is the sum of squared deviations over count − 1, and NaN for one sample; the standard deviation is its square root; the time stamp is `now`; the slug is the slug of the topic; nothing else changes |
| Store.GetSentimentsBySlug | firestore_store.go:42-47 | a string that is not a slug is refused with InvalidSlug before any lookup; otherwise the answer is the lookup's |
| Stats.UpdateAverage | aggregate.go:97-99 | count · new mean = (count − 1) · old mean + value |
| Stats.UpdateVariance | aggregate.go:101-103 | the increase is (value − old mean) · (value − new mean) |
| Stats.UpdateVarianceIgnoresCount | aggregate.go:101-103 | the count argument has no effect on the result |
| Stats.MeanStep | aggregate.go:97-99 | updateAverage turns the mean of s into the mean of s + [x] |
| Stats.WelfordStep | aggregate.go:76-87 | one update turns the mean and the sum of squared deviations of s into those of s + [x] |
| Stats.OrderInvariant | aggregate.go:28-47 | a permutation of the scores has the same mean and the same sum of squared deviations |
| Stats.FourScores | aggregate.go:97-103 | the scores 0.5, −0.2, 0.1 and 0.9 have mean 0.325 and sum of squared deviations 0.6875 |
| Aggregate.MaxOrZero | aggregate.go:88-92 | the checkpoint is at least 0 and at least every ID, and is 0 or one of the IDs |
| Aggregate.SummaryStep | aggregate.go:39-46 | folding one result into its topic's summary is updateAggregate followed by populateWithSearch |
| Aggregate.SummaryAbsent | aggregate.go:34-36 | a topic not yet seen has the zero record, the Sentiment created on first sight |
| Aggregate.SummaryOther | aggregate.go:32-47 | a result leaves the summaries of the other topics unchanged |
| Aggregate.FoldAll | aggregate.go:32-47 | every aggregate of the fold has a count of at least 1 |
| Aggregate.FoldAllSummarizes | aggregate.go:28-47 | after any stream the map holds exactly its topics, each with its count, mean score, sum of squared deviations, largest tweet ID, normalised topic and last query |
| Aggregate.FoldAllIsSummaries | aggregate.go:28-47 | the folded map equals the map of summaries |
| Aggregate.SavedSummary | aggregate.go:49-51 | a saved record has count ≥ 1, the mean score, the Bessel-corrected sample variance (NaN for a single score), the largest tweet ID and the slug of the normalised topic |
| Aggregate.FourScoresSaved | aggregate.go:28-74 | a topic scored 0.5, −0.2, 0.1 and 0.9 is saved with count 4, score 0.325 and variance 0.6875/3 |
| Aggregate.SavedRecordsAppend | aggregate.go:49-59 | one more attempted topic adds its finalised record, stamped with the clock reading of its own attempt, unless its save fails |
| Aggregate.Updated | aggregate.go:76-95 | the record updateAggregate leaves, as a value; SummaryStep states what it computes |
| Aggregate.Fold | aggregate.go:33-46 | one iteration of the range loop on values: the zero record on first sight, then Updated and Populated |
| Aggregate.RangeOrder | aggregate.go:49 | the order of `range sentiments`: every key exactly once |
| Aggregate.UpdateAggregate | aggregate.go:76-95 | the Sentiment itself is returned; count + 1; score and variance follow updateAverage and updateVariance; the checkpoint becomes the larger of itself and the tweet ID |
| Aggregate.Absorb | aggregate.go:33-46 | the result's topic gets a fresh Sentiment on first sight; the aggregates are then the fold of the result |
| Aggregate.FoldResults | aggregate.go:29-47 | one fresh, distinct Sentiment per topic, holding the fold of the stream |
| Aggregate.SaveOne | aggregate.go:50-59 | the topic's Sentiment becomes Finalized of its old value and every other Sentiment is unchanged; its record is saved unless its save fails |
| Aggregate.SaveAll | aggregate.go:49-71 | every topic is attempted exactly once; afterwards the i-th topic attempted, failing ones included, holds Finalized of its folded value at time clock(i); the saved records are the finalised ones whose save succeeds, in that order |
| Aggregate.Run | aggregate.go:28-74 | every topic of the stream is attempted exactly once, and the saved records are the finalised summaries of those whose save succeeded, each stamped at its own finalize |
| Search.TermsError | search.go:80-88 | the loop reports nothing, EmptyTopic or EmptyQuery |
| Search.TermsErrorSpec | search.go:80-88 | nothing is reported iff every term has a topic and a query; otherwise the first bad term decides, with its topic checked first |
| Search.NewSearcher | search.go:74-112 | a Searcher exists iff there are terms, all usable, minResults ≥ 1 and the credentials verify; it keeps the terms, minResults and maxAge; NoTerms, EmptyTopic/EmptyQuery of the first bad term, BadMinResults and Unauthenticated, each exactly when the earlier checks pass |
| Search.GetLastSeenID | search.go:132-148 | with no error iff the slug is valid and the lookup yields exactly one record, whose LastSeenID is the result; otherwise 0 with the store's own error, or Ambiguous with the number of records returned |
| Search.RequestFor | search.go:159-202 | the request of an iteration: the trimmed query, result_type "recent", lang "en", count PageSize(minResults), max_id MaxIDParam(cursor), since_id fromID |
| Search.PageSize | search.go:162-167 | count is minResults capped at 100 |
| Search.MaxIDParam | search.go:200 | max_id is cursor − 1; MinInt64 wraps to MaxInt64 |
| Search.AsWrittenStopsOnlyWhen | search.go:189 | as written, the loop stops iff collected ≥ minResults and seen < 3·minResults |
| Search.AsWrittenNeverGivesUp | search.go:185-189 | as written, having seen 3·minResults statuses never stops the loop |
| Search.IntendedStops | search.go:185-189 | with the documented rule, the loop stops iff collected ≥ minResults or seen ≥ 3·minResults |
| Search.GiveUpCounterexample | search.go:185-189 | with minResults 5, the code fetches again at 4 collected of 15 seen, and at 5 of 15, where the documented rule stops |
| Search.KeepFetching | search.go:189 | the loop condition: AsWritten is the code's `collected < minResults \|\| seen >= minResults*3`, Intended the give-up rule of the comment above it; IntendedUntilEmpty is that rule, with the loop also ending on an empty page |
| Search.ResultOf | search.go:231-241 | the result carries the term, the tweet ID and the text; `retweet` iff the status has a retweeted status |
| Search.EmitPage | search.go:213-246 | a page emits no more results than it has statuses |
| Search.Recent | search.go:219-229 | a status is emitted iff its creation time parsed and its age is not above maxAge |
| Search.KeptIndicesSpec | search.go:219-229 | the kept positions are increasing positions of the page, and a position is kept iff its status parsed and is recent |
| Search.EmitPageKeeps | search.go:213-246 | the k-th emitted result is the result of the status at the k-th kept position |
| Search.LowestIsMin | search.go:214-217 | the cursor after a page is at most the old cursor and every ID on the page, and it is one of them |
| Search.Lowest | search.go:214-217 | the cursor after a page: lowered to each ID in turn; LowestIsMin states its value |
| Search.ScanPage | search.go:213-246 | the range loop appends the page's emitted results, counts them as collected, counts every status as seen and lowers the cursor |
| Search.EmittedAboveCheckpoint | search.go:202 | if every status Twitter returns has an ID above the checkpoint (the since_id promise), so has every emitted result |
| Search.CollectedAtMostSeen | search.go:177-179 | no more results are collected than statuses are seen |
| Search.CursorIsLowest | search.go:180-183 | the cursor is the least ID seen so far, or MaxInt64 when none is lower |
| Search.RequestsForAt | search.go:199-205 | the j-th request carries the cursor reached after the first j pages |
| Search.RuleHeldBeforeAt | search.go:189 | the loop condition held before every page that was fetched |
| Search.FetchPage | search.go:189-246 | one iteration that got a page sends the request for the cursor and extends every running total by that page alone |
| Search.FetchLoop | search.go:177-247 | the loop's results, requests, pages and exit in terms of the script; it stops on Satisfied iff the loop condition fails; under the documented rule it fetches at most 3·minResults pages when none is empty; under IntendedUntilEmpty it ends at the first empty page and fetches at most 3·minResults pages on every script |
| Search.EmptyRepliesRefetch | search.go:199-246 | over any number of empty pages nothing is seen or collected, the cursor stays at MaxInt64, the loop condition holds under every rule, and every request is the first one again |
| Search.FetchPages | search.go:189-246 | the loop without its exits: on leaving it, LoopState holds of the pages fetched and the loop can go no further |
| Search.Search | search.go:150-248 | search of one term: the checkpoint is from getLastSeenID, or 0; each request carries the trimmed query, the count, the cursor and since_id; the loop condition held before every page; exits on cancel, API error or a failed condition; under IntendedUntilEmpty also on an empty page, after at most 3·minResults pages |
| Config.TermError | cmd/centimentd/config.go:69-75 | a term is refused iff its topic or query has fewer than three runes |
| Config.ValidateTerms | cmd/centimentd/config.go:68-76 | the validation loop: the complaint about the first term that has one; ValidateTermsSpec states its meaning |
| Config.ValidateTermsSpec | cmd/centimentd/config.go:68-76 | terms are accepted iff all are long enough; otherwise the first short term decides, with its topic checked first |
| Config.ParseSearchTerms | cmd/centimentd/config.go:61-79 | a decode error is passed on; otherwise the decoded list is returned unchanged iff every topic and query has ≥ 3 runes, and the first short term decides the error |
| Config.ThreeRunesSuffice | cmd/centimentd/config.go:69-74 | exactly three runes are accepted and two are refused |
| Config.AcceptedTermsAreUsable | cmd/centimentd/config.go:68-78 | an accepted file has only usable terms, so NewSearcher accepts it when non-empty, with minResults ≥ 1 and valid credentials |
| Config.EmptyFileAcceptedThenRefused | cmd/centimentd/config.go:68-78 | an empty file is accepted, and NewSearcher then refuses it with NoTerms |

## Left out

- Searcher.Run, the Analyzer and all goroutines, channels and wait groups are not modelled. The model runs one search or one aggregation as a sequential computation, because it is concurrency, not sequential logic.
- The Natural Language request construction (`sentimentRequest`) and its NFC normalisation are not modelled, because they are foreign calls.
- `cmd/centimentd/main.go`, `server.go`, `firestore_store.go` apart from the slug check, and `_functions/index.js` are not part of this model.
- GoStrings.LowerRune: follows `unicode.ToLower` only on the Basic Latin and Latin-1 Supplement blocks. Every other code point is left unchanged.
- Stats.UpdateAverage: is exact real arithmetic. float32-to-float64 conversion and float64 rounding are not modelled.
- Stats.UpdateVariance: is exact real arithmetic. Float64 rounding is not modelled.
- Aggregate.UpdateAggregate: does not model int64 overflow of `Count`.
- Aggregate.SaveAll: the visiting order of `range` is chosen before the first topic is finalised. The loop does not change the map, so this is the same set of orders.
- Aggregate.Run: save errors are only logged in the source. The model returns the saved records and the order of attempts, and logging is left out.
- Store.Sentiment.Finalize: the time stamp is the parameter `now`; Aggregate.SaveAll passes the i-th finalize `clock(i)`, and nothing is assumed about how the readings are ordered.
- Store.GetSentimentsBySlug: models the outcome only. The Firestore query and its ordering are left out.
- Search.FetchLoop: an empty page does not end the loop in the source (see Findings); the model proves the bound only when no reply is empty, or under the corrected rule IntendedUntilEmpty.
- Search.FetchLoop: is bounded by the script of steps. Each finite run of the loop is its run over some script; a run that never ends appears only through its finite prefixes, with exit ScriptEnd. `minResults * 3` is not checked for int overflow.
- Search.EmittedBy: the code never compares a status ID with the checkpoint; it only sends `since_id = fromID` and relies on Twitter to honour it. The model leaves pages unconstrained, so results at or below the checkpoint are emitted whenever Twitter returns them (Search.EmittedAboveCheckpoint states the conditional promise).
- GoStrings: strings are sequences of code points, not UTF-8 bytes, so `utf8.RuneCountInString` is the length; its counting of each invalid byte as one rune is not modelled.
- Search.NewSearcher: `VerifyCredentials` is the flag `credentialsOk`, and logger, client and db are left out.
- Search.Search: the error from getLastSeenID is only logged, and the loop proceeds with 0.
- `parseConfig` (command-line flags) is not modelled, and the TOML decoder is the parameter `decoded` of Config.ParseSearchTerms.
- Absorb, FoldResults, RangeOrder, SaveOne, SaveAll, FetchPage, FetchPages and ScanPage have no functions of their own in the source. They are the loop bodies and loops of `Run` and `search`, split out so that each proof stays small.

## Findings

| source | as written | input that shows it | evidently intended | confidence | as-written member | corrected member |
|---|---|---|---|---|---|---|
| search.go:213-246 | an empty `resp.Statuses` leaves `seen`, `collected` and `cursor` as they were, so the same request is sent again and the loop never gives up, under the code's condition and the comment's rule alike | minResults = 1 and a query Twitter has no more statuses for: every page is empty, so every request is the first and the loop goes on past 3 pages until the context is done or a call fails | end the loop on an empty page, which bounds the pages fetched by 3·minResults on every script | not executed | Search.EmptyRepliesRefetch | Search.FetchLoop |
| search.go:189 | `for (collected < sr.minResults) \|\| (seen >= sr.minResults*3)`: once 3·minResults statuses are seen, the loop keeps fetching, and it also goes on after enough results were collected | minResults = 5, seen = 15, collected = 4 (fetches again instead of giving up); collected = 5, seen = 15 (fetches again although satisfied) | the comment above the loop: give up after 3·minResults seen, i.e. loop while `collected < minResults && seen < minResults*3` | not executed | Search.GiveUpCounterexample | Search.IntendedStops |
