# Time-decayed vote aggregation (aicevote "computer")

This project models the vote-aggregation core of the aicevote computer, a Rust
library compiled to WebAssembly. Its input is a list of polling themes and one
flat list of votes. For each theme it produces:

- the current percentage distribution over the theme's choices;
- a "short" series of 60 past snapshots, one every result interval;
- a "long" series of 60 past snapshots, one every 24 result intervals.

A vote's weight decays in steps. After `k` whole melting periods it weighs
`(4k + 5) / (k² + 4k + 5)`. Only votes that are valid at the sampled instant
are counted.

Modules, following the structure of `src/lib.rs`:

- `Types` (`types.dfy`): the records `Theme`, `Vote`, `Request`, `Transition` and `Response` as datatypes. An `Entry` is one percentage: a number, or NaN.
- `DecayModel` (`decay.dfy`): `get_melting_rate`, `get_result_interval` and `eval_formula`. The weight is computed exactly, as a `real`.
- `Aggregator` (`aggregator.dfy`): `calc_result`. The method `CalcResult` keeps the source's imperative form: a zero-filled `array<real>` of buckets, updated in place by a loop over the votes. Its loop invariant states each partial bucket sum. It is proved equal to the specification function `Aggregate`, which the pure parts of the model call. Percentages are computed over reals, including the final rounding to four decimals (`(p / sum * 1e6).round() / 1e4`, with ties rounded away from zero).
- `Transitions` (`transition.dfy`): `calc_transition`. It filters the votes by theme, then builds the two 60-sample series.
- `Pipeline` (`pipeline.dfy`): the per-theme assembly inside `computer`. It also models the `now as u64` cast.

Unsigned 64-bit fields and values are modelled as `nat`. The source can panic
(in a debug build) or misbehave in three places, and the model treats each
explicitly:

- Sample instants `now - i * result_interval` must not underflow u64. The model requires `now >= 1416 × result_interval`, where 1416 = 59 × 24 is the oldest long-series step.
- `points[vote.answer as usize]` panics on an index past the bucket vector. The model requires that every vote valid at a sampled instant has `answer < |choices|` (`AnswersFit`, `CanSample`, `CanCompute`).
- The u64 denominator in `eval_formula` overflows for astronomically old votes; this is listed under "Left out".

On a 64-bit target, and apart from that `eval_formula` overflow, the first two
conditions are exactly what the source needs from its callers to avoid a panic
in a debug build. A vote whose answer is out of range but which is never valid
at a sampled instant is allowed, just as in the source.

Rounding each entry to four decimals means the entries need not total 100
within 0.0001. Buckets in the ratio 499999 : 499999 : 499999 : 500003 round to
25, 25, 25 and 25.0002, which total 100.0002 (`Aggregator.RoundingExample`).
The bound proved is `n × 0.00005` for `n` choices (`Aggregator.RoundedTotal`,
`Aggregator.AggregateMeaning`). The exact, unrounded shares total exactly 100
(`Aggregator.SharesArePercentages`).

## Model

| member | source | states |
|---|---|---|
| `DecayModel.MeltingRate` | src/lib.rs:57-65 | the melting rate is positive, so the division in `eval_formula` never divides by zero; for every class it is 6 × the result interval |
| `DecayModel.ResultInterval` | src/lib.rs:67-75 | the result interval is positive for every class |
| `DecayModel.ClassTable` | src/lib.rs:57-75 | class 1 gives 2,400,000 ms and 400,000 ms; each of classes 2 to 5 is 3 × the previous class; every class outside 1..4 gets the `_` row (194,400,000 ms and 32,400,000 ms) |
| `DecayModel.SlowerForLargerClass` | src/lib.rs:57-75 | from class 1 up, a larger class never has a shorter melting rate or result interval |
| `DecayModel.Step` | src/lib.rs:78 | `k` is the floor quotient: `k × rate <= elapsed < (k + 1) × rate` |
| `DecayModel.WeightAt` | src/lib.rs:79 | `(4k+5)/(k²+4k+5)` lies in (0, 1] and equals 1 at `k = 0` |
| `DecayModel.Weight` | src/lib.rs:77-80 | every vote weight lies in (0, 1] |
| `DecayModel.WeightAtStepDown` | src/lib.rs:79 | one more melting period strictly lowers the weight |
| `DecayModel.WeightAtAntitone` | src/lib.rs:79 | the weight is non-increasing in `k` |
| `DecayModel.WeightAtVanishes` | src/lib.rs:79 | the weight after `k` periods is at most `5 / (k + 1)`, so it tends to 0 |
| `DecayModel.StepMonotone` | src/lib.rs:78 | a larger elapsed time never gives a smaller `k` |
| `DecayModel.WeightStaircase` | src/lib.rs:77-80 | on each period `[k × rate, (k+1) × rate)` the weight is the constant `WeightAt(k)`: it depends on `elapsed` only through `k` |
| `DecayModel.WeightAntitone` | src/lib.rs:77-80 | an older vote never weighs more than a younger one |
| `DecayModel.DenominatorFitsU64` | src/lib.rs:79 | the u64 denominator `val * val + 4 * val + 5` fits in 64 bits if and only if `k <= 2^32 - 3` |
| `DecayModel.WeightExamples` | src/lib.rs:77-80 | at class 1, a fresh vote weighs 1 and a vote 2,400,000 ms old weighs 9/10 |
| `Aggregator.Counts` | src/lib.rs:87 | the validity filter; a vote with `expired_at == 0` counts at every instant from its creation on, and a vote with `0 < expired_at <= created_at` never counts |
| `Aggregator.ValidityWindow` | src/lib.rs:87 | a vote that is valid at two instants is valid at every instant between them |
| `Aggregator.AnswersFit` | src/lib.rs:89 | the no-panic condition of `points[vote.answer]`; with no choices it holds exactly when no vote is valid |
| `Aggregator.Contribution` | src/lib.rs:87-89 | a vote adds a positive weight to bucket `c` if and only if it is valid at `now` (`created_at <= now` and `expired_at == 0` or `expired_at > now`) and its answer is `c`; otherwise it adds 0 |
| `Aggregator.Tally` | src/lib.rs:85-90 | a bucket, after any prefix of the loop over the votes, is non-negative |
| `Aggregator.Buckets` | src/lib.rs:83 | the bucket vector has exactly `num_of_choices` entries |
| `Aggregator.CalcResult` | src/lib.rs:82-97 | the in-place accumulation loop over the array followed by normalisation returns `Aggregate(now, melting_rate, n, votes)`, the normalised vector of per-choice weight sums |
| `Aggregator.RoundHalfAway` | src/lib.rs:95 | `round` lands within 0.5 of its argument, rounds halfway cases away from zero (above `x - 0.5` for `x >= 0`, below `x + 0.5` for `x < 0`) and keeps non-negative values non-negative |
| `Aggregator.Normalize` | src/lib.rs:92-96 | normalising keeps the vector's length |
| `Aggregator.NormalizeNaNIff` | src/lib.rs:92-96 | an entry is NaN if and only if the bucket sum is 0 |
| `Aggregator.SumNonNegative` | src/lib.rs:92 | `points.iter().sum()` of non-negative buckets is non-negative |
| `Aggregator.Aggregate` | src/lib.rs:82-97 | the value of `calc_result`: one entry per choice, and each entry is NaN if and only if no vote is valid at `now` |
| `Aggregator.TallyConcat` | src/lib.rs:85-90 | bucket sums are additive over any split of the vote list |
| `Aggregator.InvalidVoteIgnored` | src/lib.rs:87 | a vote that is not valid at `now` (a future or an expired vote), inserted anywhere, changes no bucket |
| `Aggregator.VoteContributesIff` | src/lib.rs:87-89 | appending a vote changes its own bucket if and only if it is valid at `now`, and then by exactly its decay weight; other buckets are unchanged |
| `Aggregator.TallyZeroIff` | src/lib.rs:83-90 | bucket `c` is 0 if and only if no vote valid at `now` answers `c` |
| `Aggregator.BucketsTotal` | src/lib.rs:83-92 | the sum of the buckets is the total weight of the votes valid at `now` |
| `Aggregator.TotalWeightPositiveIff` | src/lib.rs:87-92 | the total weight is positive if and only if some vote is valid at `now` |
| `Aggregator.SharesArePercentages` | src/lib.rs:92-96 | with a positive sum, every exact share `points[c] / sum × 100` lies in [0, 100] and the shares total 100 |
| `Aggregator.RoundedEntry` | src/lib.rs:95 | with a positive sum, each rounded entry is defined, lies in [0, 100] and is within 0.00005 of its exact share |
| `Aggregator.RoundedEntries` | src/lib.rs:93-96 | with a positive sum, every entry is a defined value in [0, 100] |
| `Aggregator.RoundedTotal` | src/lib.rs:92-96 | with a positive sum, the rounded entries total 100 within `n × 0.00005` |
| `Aggregator.NormalizeZero` | src/lib.rs:92-96 | with a zero sum, every entry is NaN (0/0) |
| `Aggregator.AggregateMeaning` | src/lib.rs:82-97 | `calc_result` returns one entry per choice; every entry is NaN exactly when no vote is valid; otherwise every entry is in [0, 100], within 0.00005 of its bucket's share of the total weight, and the entries total 100 up to rounding |
| `Aggregator.SingleVoteExample` | src/lib.rs:82-97 | one class-1 vote for choice 0 of two, created at 0, gives `[100, 0]` at instant 0; no votes give `[NaN, NaN]` |
| `Aggregator.RoundingExample` | src/lib.rs:92-96 | buckets in the ratio 499999 : 499999 : 499999 : 500003 give `[25, 25, 25, 25.0002]`, totalling 100.0002 |
| `Transitions.ThemeVotes` | src/lib.rs:106-110 | the filtered list holds exactly the votes of the theme, and is never longer than the input |
| `Transitions.ThemeVotesConcat` | src/lib.rs:106-110 | filtering by theme commutes with concatenation, so input order is kept |
| `Transitions.OtherThemeVoteFiltered` | src/lib.rs:106-110 | a vote of another theme, inserted anywhere, leaves the filtered list unchanged |
| `Transitions.ShortInstant` | src/lib.rs:112 | the instant `now - i * result_interval` of short sample `i` never lies after `now`, and lies strictly before it for `i > 0` |
| `Transitions.LongInstant` | src/lib.rs:112-126 | the instant `now - (i * 24) * result_interval` of long sample `i` never lies after `now`, and equals short sample `24 × i` where that exists |
| `Transitions.CanSample` | src/lib.rs:112-120 | no u64 underflow at the oldest sample and every vote valid at a sampled instant in range; it implies the no-panic condition at `now`, and with no votes it is only the no-underflow condition |
| `Transitions.Snapshot` | src/lib.rs:111-122 | a snapshot carries its instant as timestamp and one percentage per choice |
| `Transitions.CalcTransition` | src/lib.rs:99-128 | both series have exactly 60 entries; `short[i].timestamp == now - i × interval` and `long[i].timestamp == now - 24 × i × interval`; every percentage vector has one entry per choice |
| `Transitions.SamplesAreAggregates` | src/lib.rs:111-126 | each sample of either series is the aggregate of the theme's votes at that sample's own timestamp, with the theme's melting rate and choice count |
| `Transitions.SeriesStartTogether` | src/lib.rs:124-127 | `short[0]` has timestamp `now` and equals `long[0]`, percentages included |
| `Transitions.SeriesMeet` | src/lib.rs:124-127 | where the two cadences coincide, `long[j] == short[24 × j]` (`j = 1, 2`) |
| `Transitions.SeriesMostRecentFirst` | src/lib.rs:111-127 | in both series the timestamps strictly decrease from the most recent sample to the oldest |
| `Transitions.OtherThemesIgnored` | src/lib.rs:106-110 | inserting a vote of another theme anywhere leaves both series unchanged |
| `Pipeline.TruncateNow` | src/lib.rs:139 | `now as u64` truncates toward zero and saturates at 0 and at 2^64 − 1 |
| `Pipeline.CanCompute` | src/lib.rs:134-139 | every theme of the request can be sampled; it holds for an empty theme list and implies the no-panic condition at `now` for every theme |
| `Pipeline.ThemeResponse` | src/lib.rs:137-146 | a response carries its theme's id and that theme's two series, and its `percentage` is `short_transition[0].percentage` |
| `Pipeline.Computer` | src/lib.rs:134-147 | one response per theme, in input order; each carries its theme's id and the series `calc_transition` computes at the truncated instant; its `percentage` is `short_transition[0].percentage` |
| `Pipeline.CurrentPercentage` | src/lib.rs:138-142 | a response's `percentage` is the aggregate of its theme's votes at the current instant and equals `long_transition[0].percentage`; it has one entry per choice; both series have 60 entries |
| `Pipeline.ThemesIndependent` | src/lib.rs:134-147 | themes are processed independently and in order: the response for `themes1 + themes2` is the response for `themes1` followed by the response for `themes2` |

## Left out

- JSON decoding and encoding with serde and `json!` (src/lib.rs:132, src/lib.rs:149), including the `unwrap` panic on a malformed request: this is foreign library code. `Pipeline.Computer` takes the decoded `Request` and returns the response list before encoding.
- The `wasm_bindgen` export, the `wee_alloc` allocator, the `cfg_if` setup and `mod utils` (src/lib.rs:1-17, src/lib.rs:130): hosting and allocator configuration.
- `worker/worker.js`: the Cloudflare fetch handler. It does HTTP I/O, loads the wasm module asynchronously and redirects on error.
- Floating point: weights, sums, divisions and rounding are exact reals. The model therefore leaves out the f64 rounding error of each operation and of the left-to-right sum.
- `Pipeline.TruncateNow` models the cast for real inputs only. A NaN `now` (which `as u64` maps to 0) is not represented; an infinite `now` only through the saturating branches.
- `DecayModel.Weight` does not model u64 overflow of `k × k + 4k + 5`, which panics in a debug build. That overflow needs `k >= 2^32 - 2` (`DecayModel.DenominatorFitsU64`), i.e. an elapsed time of at least (2^32 − 2) × 2,400,000 ms, far beyond any timestamp. The model also leaves out the rounding in `as f64` of a numerator or denominator above 2^53.
- `Aggregator.Normalize` requires non-negative buckets, which the buckets always are. Under that condition a zero sum means every bucket is 0, so every entry is NaN. The ±infinity that `x / 0.0` yields for `x > 0` cannot arise and is not modelled.
- The u64 underflow of `now - i * result_interval` (src/lib.rs:112) and the out-of-bounds panic of `points[vote.answer]` (src/lib.rs:89) are preconditions (`CanSample`, `AnswersFit`), not modelled wrap-around or panics.
- `Aggregator.AnswersFit`: on a 32-bit target such as wasm32, `vote.answer as usize` keeps only the low 32 bits of the u64 answer, so a valid vote with `answer = 2^32 + c` lands in bucket `c` without a panic. The model treats every answer `>= |choices|` as out of range, which is the range votes are meant to carry, and does not model that truncation.
- `Vote::clone` and borrowing (src/lib.rs:109, src/lib.rs:119) are not modelled, since the model works on values.
