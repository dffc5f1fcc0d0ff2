# searxng-rs engine layer, modelled in Dafny

This project models the engine layer of searxng-rs, a Rust metasearch engine. The layer has four parts:

- **The circuit breaker.** A standalone component: nothing in the engine layer constructs or consults one. It is a Closed / Open / HalfOpen state machine with a consecutive-failure counter, a threshold and a cooldown.
- **The engine registry.** It holds the registered engines by id. A search runs every enabled engine with its settings, multiplies each engine's scores by its weight, gathers the outputs in completion order and aggregates them.
- **The aggregator.** It keeps one result per exact URL, the one with the strictly highest score (the first one seen on a tie), and sorts the survivors by score, highest first.
- **Six engines.** Each one builds its HTTP request from the query (Google, Bing, DuckDuckGo, Wikipedia, Qwant, Reddit) and turns a response into results.

One module per source file:

- `circuit_breaker.dfy`: the class `CircuitBreaker.Breaker`. Its `Check`, `ReportSuccess` and `ReportFailure` methods are specified by the transition functions of the value `BreakerView`. The lemmas about `BreakerView` cover:
  - which requests pass;
  - the single HalfOpen probe;
  - opening after exactly `threshold` failures;
  - the invariant that keeps the u32 counter from overflowing.

  `UnitTestFlow` replays the repository's own unit test, with the clock as an explicit argument.
- `aggregator.dfy`: `Aggregate` is written as three steps:
  - the deduplication loop, specified by the left fold `Dedup`;
  - `into_values`, with the HashMap order left arbitrary;
  - an in-place, stable insertion sort on an array.

  The `FirstBest` lemmas say which copy of a URL survives.
- `registry.dfy`: the class `EngineRegistry` with `RegisterEngine` and `Search`. Each engine's search outcome for the query is a parameter: a result, a timeout or a panicked task. Both HashMap iteration order and task completion order are arbitrary.
- `config.dfy`: engine settings with their serde defaults and `unwrap_or_default`.
- `google.dfy`, `bing.dfy`, `duckduckgo.dfy`, `wikipedia.dfy`, `qwant.dfy`, `reddit.dfy`: each engine's request, the parameters a server reads back from it, and how a response becomes results.
- Shared helpers:
  - `models.dfy`: the records;
  - `paging.dfy`: page offsets;
  - `shaping.dfy`: the "skip or emit one result per element" loop, stated once as `FilterMap`;
  - `text.dfy`: `split(..).next()`, `replace`, decimal `to_string`;
  - `wrappers.dfy`: `Option`/`Result`.

Scores and weights are `real` numbers standing in for `f64`. Time is a natural number of time units passed in as `now`.

The model follows what the code does, which in five places is less than a metasearch engine usually does:

- URLs are compared exactly, with no normalisation, and no score depends on a result's position;
- a duplicate URL keeps only its highest-scored copy: engines are not merged and scores are not summed;
- Reddit is always asked for its first page only;
- no engine is guarded by a circuit breaker: the registry runs every enabled engine unguarded;
- the `throttle`, `tokens` and `extra` settings are parsed but never read by the registry or the engines.

Two construction helpers carry no contract of their own, because their bodies are the whole story: `Models.EngineResult` builds a result the way every engine does (its own id as the only engine, score 1.0, no metadata), and `Shaping.SnippetContent` turns a missing snippet into empty text. The engines' rule lemmas (`Google.ShapeRule`, `Wikipedia.PageResultRule`, `Reddit.PostResultRule` and the others) state the results they build.

## Model

| member | source | states |
|---|---|---|
| `CircuitBreaker.NewView` | src/engines/circuit_breaker.rs:20-28 | a new breaker is Closed with no failures and satisfies the breaker invariant |
| `CircuitBreaker.Breaker.constructor` | src/engines/circuit_breaker.rs:20-28 | `new`: Closed, zero failures, no failure time, the given threshold and cooldown; invariant established |
| `CircuitBreaker.Breaker.Check` | src/engines/circuit_breaker.rs:32-53 | the answer is whether the old breaker allows a request now; the new state is Open→HalfOpen after the cooldown, otherwise unchanged; invariant kept |
| `CircuitBreaker.Breaker.ReportSuccess` | src/engines/circuit_breaker.rs:55-67 | the new state is the success transition of the old one; invariant kept |
| `CircuitBreaker.Breaker.ReportFailure` | src/engines/circuit_breaker.rs:69-88 | the new state is the failure transition of the old one, and the `failures += 1` in u32 is proved not to overflow; invariant kept |
| `CircuitBreaker.AfterFailure` | src/engines/circuit_breaker.rs:69-88 | a failure keeps the invariant: an open breaker has a failure time, a closed one is below its threshold, and the counter stays within max(threshold, 1) |
| `CircuitBreaker.CheckClosed` | src/engines/circuit_breaker.rs:33-34 | a Closed breaker always allows and `check` leaves it unchanged |
| `CircuitBreaker.CheckOpen` | src/engines/circuit_breaker.rs:35-44 | Open allows exactly when a failure time is recorded and the cooldown has elapsed since it, and then turns HalfOpen; otherwise it refuses and is unchanged |
| `CircuitBreaker.CheckHalfOpen` | src/engines/circuit_breaker.rs:45-51 | a HalfOpen breaker refuses every check and `check` leaves it unchanged |
| `CircuitBreaker.OpenRefusesOnlyDuringCooldown` | src/engines/circuit_breaker.rs:35-44 | in a valid breaker, Open refuses if and only if the cooldown since the last failure has not elapsed |
| `CircuitBreaker.OneProbePerCooldown` | src/engines/circuit_breaker.rs:45-51 | after the one request that turned Open into HalfOpen, no later check passes until a report, whatever the time |
| `CircuitBreaker.SuccessTransitions` | src/engines/circuit_breaker.rs:55-67 | success closes a HalfOpen breaker and clears its counter and failure time, clears only the counter when Closed, and leaves Open alone |
| `CircuitBreaker.FailureInClosed` | src/engines/circuit_breaker.rs:71-77 | a failure in Closed adds one to the counter, and opens the breaker with time `now` exactly when the count reaches the threshold |
| `CircuitBreaker.FailureWhenNotClosed` | src/engines/circuit_breaker.rs:78-86 | a failure in HalfOpen or Open gives Open with the failure time refreshed to `now` |
| `CircuitBreaker.FailTimes` | src/engines/circuit_breaker.rs:69-88 | any number of consecutive failures keeps the invariant, the threshold and the cooldown |
| `CircuitBreaker.FailTimesStep` | src/engines/circuit_breaker.rs:69-88 | n + 1 failures are n failures followed by one more |
| `CircuitBreaker.FailuresBelowThreshold` | src/engines/circuit_breaker.rs:104-107 | from a fresh Closed breaker, fewer than `threshold` failures leave it Closed with exactly that many failures counted |
| `CircuitBreaker.ThresholdFailuresOpen` | src/engines/circuit_breaker.rs:109-111 | exactly `threshold` (at least 1) failures open a fresh breaker, with `threshold` failures counted and the last failure time recorded |
| `CircuitBreaker.ValidPreserved` | src/engines/circuit_breaker.rs:32-88 | check, success and failure all keep the breaker invariant |
| `Aggregator.Aggregate` | src/engines/aggregator.rs:9-37 | the output is sorted by score (highest first) and has distinct URLs. Its URLs are exactly the input URLs, and its results are exactly the deduplication map's values. Each one is the first highest-scored input result for its URL. It is never longer than the input |
| `Aggregator.UniqueByUrl` | src/engines/aggregator.rs:10-26 | the map built by the deduplication loop is the left fold `Dedup` of the input |
| `Aggregator.DedupKeys` | src/engines/aggregator.rs:12-26 | the map's keys are exactly the input URLs and each key maps to a result carrying that URL |
| `Aggregator.DedupSelectsFirstBest` | src/engines/aggregator.rs:12-26 | for every URL the map keeps the first input result of maximal score with that URL |
| `Aggregator.KeepStep` | src/engines/aggregator.rs:13-25 | one loop step keeps every kept result a first-best of the extended input |
| `Aggregator.FirstBestSurvives` | src/engines/aggregator.rs:18-20 | a later result with the same URL and a score that is not higher does not displace the first-best |
| `Aggregator.NewFirstBest` | src/engines/aggregator.rs:18-23 | a result scoring strictly higher than every earlier one with its URL becomes the first-best |
| `Aggregator.FirstBestUnique` | src/engines/aggregator.rs:12-26 | each URL has at most one first-best result |
| `Aggregator.DedupKeepsMaximum` | src/engines/aggregator.rs:18-20 | every input URL survives, with a score at least that of every input result for it |
| `Aggregator.IntoValues` | src/engines/aggregator.rs:28 | the collected values are exactly the map's values, each once (distinct URLs) |
| `Aggregator.SortByScoreDesc` | src/engines/aggregator.rs:31-35 | sorting in place leaves the array in non-increasing score order and a permutation of what it held |
| `Aggregator.SortedPermutationFacts` | src/engines/aggregator.rs:28-37 | a permutation of the collected values has distinct URLs, the input URLs, the map's values and only first-best results |
| `Aggregator.PermutationKeepsDistinctUrls` | src/engines/aggregator.rs:31-35 | reordering results with distinct URLs keeps the URLs distinct |
| `Aggregator.UrlsOfValues` | src/engines/aggregator.rs:28 | the URLs of the collected values are the map's keys |
| `Aggregator.UrlsCount` | src/engines/aggregator.rs:28 | a list has no more distinct URLs than results |
| `Aggregator.DistinctUrlsCount` | src/engines/aggregator.rs:28 | a list with distinct URLs has exactly as many URLs as results |
| `Config.Default` | src/config.rs:35-46 | `EngineConfig::default()` is enabled, weight 1.0, timeout 2 s, throttle 500 ms, no tokens and no extra settings |
| `Config.EmptyEntryIsDefault` | src/config.rs:6-46 | an entry with every field absent deserialises to exactly `EngineConfig::default()` |
| `Config.EntryFieldsKept` | src/config.rs:6-20 | each of the six fields present in an entry (enabled, weight, timeout, throttle, tokens, extra) is taken as given |
| `Config.ConfigFor` | src/engines/registry.rs:33 | an engine with settings gets its own, any other gets the default (which is enabled) |
| `Text.PrefixBefore` | src/engines/wikipedia.rs:34 | the first piece of a split is a prefix with no occurrence of the separator, ending at the first one or at the end |
| `Text.PrefixBeforeIdempotent` | src/engines/wikipedia.rs:34 | splitting the first piece again gives the same piece |
| `Text.ReplaceChar` | src/engines/wikipedia.rs:72 | the same length, with every occurrence of the character replaced and everything else kept |
| `Text.ReplaceCharRemoves` | src/engines/wikipedia.rs:72 | after replacing spaces by underscores no space is left |
| `Text.DecimalString` | src/engines/google.rs:38 | `to_string` of a number is a non-empty digit string without a leading zero |
| `Text.DecimalRoundTrip` | src/engines/google.rs:38 | parsing `to_string` of a number gives the number back |
| `Text.DecimalInjective` | src/engines/google.rs:38 | distinct numbers have distinct decimal strings |
| `Paging.CheckedOffsetFails` | src/engines/google.rs:34 | the as-written `(page - 1) * n (+ 1)` in u32 fails exactly at page 0 or when the offset exceeds u32 |
| `Paging.PageZeroUnderflows` | src/engines/google.rs:34 | page 0 underflows for Google, Wikipedia and Bing alike |
| `Paging.LargePageOverflows` | src/engines/qwant.rs:34 | pages 429496731 (ten per page) and 214748366 (twenty per page) overflow u32; page 429496730 still fits |
| `Paging.PageOffset` | src/engines/bing.rs:34 | the corrected offset is (page - 1) * n + add from page 1 on, and page 0 reads as page 1 |
| `Paging.CorrectedAgrees` | src/engines/wikipedia.rs:40 | wherever the as-written computation succeeds, the corrected one gives the same value |
| `Paging.PageOffsetFitsU64` | src/engines/wikipedia.rs:39-40 | for the engines' page sizes the corrected offset always fits in 64 bits |
| `Paging.PageOffsetIncreasing` | src/engines/wikipedia.rs:39-40 | a later page starts at least one page size further on |
| `Shaping.FilterMapSnoc` | src/engines/google.rs:70-108 | one more element adds its result (if it is not skipped) at the end |
| `Shaping.FilterMapAppend` | src/engines/google.rs:70-108 | the results of two consecutive parts of a page are those of the first followed by those of the second |
| `Shaping.FilterMapMembers` | src/engines/google.rs:70-108 | a result is emitted exactly when some element shapes to it |
| `Shaping.FilterMapLength` | src/engines/google.rs:70-108 | never more results than elements, exactly as many when none is skipped |
| `Google.RequestParams` | src/engines/google.rs:32-45 | a GET to the search URL whose `q` is the query, whose `start` reads back as (page - 1) * 10 (from page 1, within u32), and whose `safe` is "active" if and only if safe search is on, else "off" |
| `Google.UnwrapHref` | src/engines/google.rs:78-91 | a `/url?q=` redirect yields the target up to the first `&` or the next `/url?q=`; any other href is kept as is |
| `Google.UnwrapPlainRedirect` | src/engines/google.rs:80-84 | a redirect to a target with no `&` and no further marker unwraps to the whole target |
| `Google.ShapeRule` | src/engines/google.rs:70-107 | an element without a title or an href is skipped; otherwise a Text result with the unwrapped URL, the title and the snippet |
| `Google.Search` | src/engines/google.rs:49-110 | an error exactly for a non-success status; otherwise the shaped results in document order, all Text, tagged "google", score 1.0 |
| `Bing.RequestParams` | src/engines/bing.rs:32-45 | `first` reads back as (page - 1) * 10 + 1 (from page 1, within u32); `adlt` is off, moderate, strict exactly for safe search 0, 1, 2 or more |
| `Bing.FirstIsOffsetPlusOne` | src/engines/bing.rs:34 | `first` is the 0-based offset plus one |
| `Bing.ShapeRule` | src/engines/bing.rs:65-89 | an element without a title anchor or href is skipped; otherwise a Text result linking to the href verbatim |
| `Bing.Search` | src/engines/bing.rs:49-92 | an error exactly for a non-success status; otherwise the shaped results in document order, tagged "bing", score 1.0 |
| `DuckDuckGo.RequestParams` | src/engines/duckduckgo.rs:32-42 | a POSTed form with `q`, an empty `b`, and `kl` the language or "wt-wt" when there is none |
| `DuckDuckGo.ShapeRule` | src/engines/duckduckgo.rs:64-88 | an element without a title anchor or href is skipped; otherwise a Text result with the href, title and snippet |
| `DuckDuckGo.Search` | src/engines/duckduckgo.rs:44-91 | an error exactly for a non-success status; otherwise the shaped results in document order, tagged "duckduckgo", score 1.0 |
| `Wikipedia.Edition` | src/engines/wikipedia.rs:31-35 | "en" for no language, else the language tag up to its first '-' |
| `Wikipedia.RequestTarget` | src/engines/wikipedia.rs:37-57 | a GET to the edition's `api.php` with the query as `gsrsearch` |
| `Wikipedia.RequestPaging` | src/engines/wikipedia.rs:39-48 | `gsrlimit` reads back as 20 and `gsroffset` as (page - 1) * 20 (from page 1, within u32) |
| `Wikipedia.PageResultRule` | src/engines/wikipedia.rs:69-95 | the URL is exactly the edition's `/wiki/` path followed by the title with every space replaced by '_', so no space is left after the path; the title is the page title or "". The content is the thumbnail image exactly when a thumbnail is present, else the extract |
| `Wikipedia.Search` | src/engines/wikipedia.rs:59-99 | an error exactly for a non-success status; otherwise exactly one result per page object, in order, or none without `pages` |
| `Qwant.RequestPaging` | src/engines/qwant.rs:33-48 | `count` reads back as 10, `offset` as (page - 1) * 10 (from page 1, within u32), `safesearch` as the query's level |
| `Qwant.RequestLocale` | src/engines/qwant.rs:31-50 | a GET to the API with the query as `q` and `locale` the language or "en_US" when there is none |
| `Qwant.DurationTextRoundTrip` | src/engines/qwant.rs:84 | a duration is shown as the number of whole seconds followed by "s" |
| `Qwant.ItemsResults` | src/engines/qwant.rs:74-98 | one result per item of a row, in order |
| `Qwant.RowItems` | src/engines/qwant.rs:75-98 | the inner loop produces exactly the row's item results |
| `Qwant.UnwantedRowsIgnored` | src/engines/qwant.rs:69-72 | a row whose type is neither `web` nor `videos` adds nothing |
| `Qwant.ItemContentRule` | src/engines/qwant.rs:80-88 | a `videos` item is a Video of its own URL with its thumbnail, and its duration is present exactly when one is given and is then `DurationText` of the milliseconds (whole seconds and 's'); a `web` item is its description as Text |
| `Qwant.MainlineResultsFromWantedRows` | src/engines/qwant.rs:67-99 | every result is Video or Text, tagged "qwant", score 1.0 |
| `Qwant.Search` | src/engines/qwant.rs:55-103 | an error exactly for a non-success status or an API status other than "success"; otherwise the results of the mainline rows in order (none without a mainline), each tagged "qwant" |
| `Reddit.RequestParams` | src/engines/reddit.rs:31-44 | `q`, `limit` reading back as 20, and `include_over_18=on` present if and only if safe search is 0 |
| `Reddit.PageIgnored` | src/engines/reddit.rs:33-47 | the request does not depend on the page |
| `Reddit.KeptThumbnail` | src/engines/reddit.rs:69 | a thumbnail is kept exactly when it starts with "http" |
| `Reddit.PostResultRule` | src/engines/reddit.rs:64-94 | the URL is the permalink on www.reddit.com. The content is a Video of the post link when it is a video, else an Image when it has a kept thumbnail, else its self text. An Image or a Video carries the thumbnail only when it starts with "http" |
| `Reddit.Search` | src/engines/reddit.rs:55-98 | an error exactly for a non-success status; otherwise exactly one result per child post, in order, or none without `children` |
| `Registry.IdsDistinct` | src/engines/registry.rs:24-26 | distinct engines have distinct ids, so registering one never replaces another |
| `Registry.EngineRegistry.constructor` | src/engines/registry.rs:17-22 | a new registry has no engines and the given settings |
| `Registry.EngineRegistry.RegisterEngine` | src/engines/registry.rs:24-26 | the engine is stored under its id, replacing any engine with that id, and every engine stays stored under its own id |
| `Registry.WeightedKeepsResults` | src/engines/registry.rs:50-52 | weighting multiplies each score by the weight and changes nothing else: same results, same order, same URLs |
| `Registry.UnitWeight` | src/engines/registry.rs:50-52 | the default weight 1.0 leaves results unchanged |
| `Registry.PositiveWeightKeepsRanking` | src/engines/registry.rs:50-52 | a positive weight keeps the relative order of an engine's scores |
| `Registry.ApplyWeight` | src/engines/registry.rs:50-53 | the in-place weighting loop computes `Weighted` |
| `Registry.RunTask` | src/engines/registry.rs:44-65 | the spawned task yields the weighted results on success, nothing on an engine error or timeout, and no vector when it panics |
| `Registry.OutputRule` | src/engines/registry.rs:44-74 | a failed, timed-out or panicked engine adds nothing; a successful one adds exactly its reweighted results |
| `Registry.GatherUrls` | src/engines/registry.rs:68-74 | a URL is among the gathered raw results exactly when some joined engine output it |
| `Registry.EngineRegistry.SpawnAll` | src/engines/registry.rs:31-66 | exactly the registered engines enabled by their settings (or by default) get a task |
| `Registry.EngineRegistry.JoinAll` | src/engines/registry.rs:68-74 | every task is joined once, in some order, and the raw results are the outputs concatenated in that order |
| `Registry.EngineRegistry.SuppliedIffOutput` | src/engines/registry.rs:31-74 | across the enabled engines, a URL is in some engine's output exactly when that engine succeeded and returned it |
| `Registry.EngineRegistry.Search` | src/engines/registry.rs:28-77 | each enabled engine runs once, under the settings of its own id. A URL is in the answer exactly when some registered, enabled engine succeeded and returned it. The answer has one result per URL, the first best-scored weighted copy, sorted by score, highest first |

## Left out

- HTTP itself is not modelled: sending requests, the network, TLS, timeouts as wall-clock time, and the `?` conversions of reqwest errors into `EngineError::Network`. A response is a status and an already parsed body.
- HTML parsing and CSS selectors are left out. The scraped engines receive the matched elements as records of title, href and snippet text. The selectors are constants that always parse, so their `EngineError::Parsing` paths cannot be taken and are not modelled.
- JSON decoding is left out. The JSON engines receive records whose absent fields stand for missing values or values of another JSON type.
- The engines' response handling is modelled without the request and response glue. In `Google.Search`, `Bing.Search` and the other engine `Search` methods, a non-success status gives an `Unexpected` error whose message is not modelled beyond the status.
- User-Agent and other headers are not part of the request model.
- Concurrency is modelled only as order: tasks run in any order and complete in any order. Cancellation and the async runtime are left out.
- Each engine's search outcome for the query is an argument of `Registry.EngineRegistry.Search`. So is the decision that it timed out under `Duration::from_secs(config.timeout)`.
- Logging through `tracing` is left out.
- `f64` is modelled as `real`. NaN, infinities and rounding are left out, and with them `partial_cmp` returning `None`.
- The order in which the sort leaves results of equal score depends on the HashMap's value order, which is arbitrary. The model proves sortedness and permutation, not a particular tie order.
- Wikipedia's `pages` is a JSON object whose iteration order the model takes as a given sequence.
- `Settings::new` (reading files and environment variables), the server settings, the web layer, `main.rs` and the `dummy` engine are not part of this model.
- The engines' `name` and `categories` are not modelled; they do not affect searching.
- The engines' `search` takes an `EngineConfig` that no engine reads, while `registry.rs` calls `search` without it. `main.rs` calls `EngineRegistry::new()` without settings, and `engines/mod.rs` declares only some of the engine modules. The model follows `registry.rs` and the engine files.
- `models.rs` declares a `SearchResult` with `content: String` and `engine: String`. The engine files build results with `content: ResultContent`, `engines` and `metadata`. The model follows the engine files.
- Google.RequestParams, Bing.RequestParams, Wikipedia.RequestPaging, Qwant.RequestPaging: `Google.Start`, `Bing.First`, `Wikipedia.Offset` and `Qwant.Offset` use the corrected `Paging.PageOffset`. At page 0, and wherever (page - 1) * n (+ 1) exceeds u32, they send the corrected offset where the source panics (debug) or sends a wrapped value (release); see Findings. A panic there would make the registry's join fail and the engine return nothing.
- Release builds wrap u32 arithmetic around instead of panicking. `Paging.CheckedOffset` models the debug build's panic as `None` and does not compute the wrapped value.

## Findings

| source | as written | input that shows it | evidently intended | confidence | as-written member | corrected member |
|---|---|---|---|---|---|---|
| src/engines/google.rs:34 | `(query.page - 1) * 10` in u32. The same pattern is at bing.rs:34, wikipedia.rs:40 and qwant.rs:34 | `page=0` underflows; `page=429496731` overflows the u32 product (ten per page); `page=214748366` does so for Wikipedia (twenty per page). Debug builds panic and release builds send a wrapped offset | page 0 reads as the first page, and the offset is computed wide enough to hold any page | not executed | `Paging.CheckedOffset` (shown by `Paging.PageZeroUnderflows`, `Paging.LargePageOverflows`) | `Paging.PageOffset` (`Paging.CorrectedAgrees`, `Paging.PageOffsetFitsU64`, `Paging.PageOffsetIncreasing`) |
