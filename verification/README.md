# Elo match rating engine, modelled in Dafny

This project models `EloUtil`, a rank-based Elo-style rating engine for one
multiplayer match. Each participant brings a user id, a current rating and a
finishing rank. The engine then runs four stages in order:

1. **Expected rank.** 1 plus the sum of the participant's lose rates against
   every other participant.
2. **Temporary rank.** The geometric mean of the expected rank and the
   finishing rank. A negative finishing rank makes it NaN, and the engine
   throws.
3. **Performance rating.** A bisection over [0, 5000] for the rating whose
   trial rank matches the temporary rank.
4. **New rating.** The rating moves half-way toward the performance rating.

All pairwise rates go through one memo cache. A miss stores the rate under
(a, b) and its complement under (b, a).

The model is organised as follows:

- `decimal.dfy` (module `Decimal`) is the part of `java.math.BigDecimal` the
  engine uses. A decimal is an unscaled integer plus a scale.
  - `add`, `subtract`, `compareTo`, `setScale`, `divide` and `intValue` have
    Java's semantics, including the rounding modes DOWN, HALF_UP and
    HALF_DOWN and the 32-bit truncation of `intValue`.
  - Every value the engine keeps has scale at most 4. `Units` counts it in
    0.0001 units, and the lemmas show the engine's arithmetic is exact
    integer arithmetic on those counts.
- `participants.dfy` covers participants, errors and construction.
- `win_rate.dfy` covers the win and lose rates and the cache. Its pair
  invariant says both directions of a pair are stored and sum to 1.
  `FromWin` says every stored rate comes from the formula. A function that
  consults the cache returns its value together with the new cache
  (`Cached`).
- `ranks.dfy` covers the expected and temporary ranks.
- `search.dfy` covers the trial-rank comparison and the bisection. The
  bisection loop is the tail-recursive method `BisectFrom`, one call per
  test of the loop condition. `Replay` is the same search as a function,
  with every comparison read from one cache.
- `update.dfy` covers the rating update.
- `engine.dfy` covers `calRating` end to end.

Three things the engine takes from outside become parameters:

- **`win`, the logistic formula.** The engine computes
  `1 / (1 + 10^((b - a) / 400))` in floating point and rounds it HALF_DOWN to
  four digits. The model takes this as a parameter returning the rate in
  0.0001 units. `IsWinModel` requires two things of it:
  - it lies in [0, 10000]. Rounding can give exactly 0 or 1 when the rating
    gap is large, so the range is closed.
  - it is 5000 for equal ratings. The engine needs this: for a == b both
    cache writes go to the same key, and the cached rate only matches the
    returned one when the rate is one half.
- **`geoMean`, the temporary-rank routine.** It is a double square root
  rounded HALF_UP to four digits.
- **The order of participants.** A `HashMap` walks the entries in an order
  it chooses. The model uses the order of the input sequence.

Ratings are modelled as exact reals. The cache is keyed by the pair of
ratings. The source keys it by the decimal text of each double, which
identifies the rating exactly.

Five facts about the code shape the model:

- **Duplicate user ids.** Construction rejects a repeated user id, because
  the collector that builds the id map throws on a second entry for a key.
  An empty list is rejected before that.
- **Negative match ranks.** The temporary rank is the square root of
  expected rank times match rank. The expected rank is at least 1, so a
  negative match rank makes the root NaN, and `new BigDecimal(NaN)` throws
  `NumberFormatException`. The first such participant in walk order stops
  `calRating`.
- **Range of the win rate.** The win rate lies in the closed range [0, 1].
  Rounding to four digits gives exactly 0 or 1 for a large rating gap.
- **Number of iterations.** The bisection always runs at least once, because
  5000 - 0 >= 0.1, and at most 16 times. So the performance rating is always
  taken from a midpoint the loop computed, never from the initial 0. Every
  midpoint lies strictly below the upper bound, so 5000 is never a result
  and the rating lies in [0, 4999].
- **Which midpoint is the result.** The rating is the integer part of the
  midpoint computed last. When the bounds become less than 0.1 apart, that
  is the bound that moved last, not just either bound.
  `Search.ReplayedSearch` replays the whole search with every comparison
  read from the final cache, and the model states that the rating is the
  integer part of where that replay ends.
- **Midpoint order.** The code rounds (top − low) / 2 to four digits and then
  adds low. `Decimal.Midpoint` states the result.

## Model

| member | source | states |
|---|---|---|
| Participants.Construct | EloUtil.java:57-69 | An empty list is rejected as EmptyInput, and only an empty list is. Construction succeeds exactly when the list is non-empty and the ids are distinct. A non-empty list with a repeated id is rejected as DuplicateUserId naming the earliest clash in list order, an id held at two positions. On success each record is kept unchanged. |
| Participants.FirstDuplicate | EloUtil.java:60-68 | The id-keyed collector finds no clash exactly when all ids are distinct. A clash it reports is an id shared by two positions. |
| Participants.FirstDuplicateIsEarliest | EloUtil.java:60-68 | The reported clash is the earliest one: the users before it have distinct ids and the user at the clash repeats one of them, as the collector meets them in list order. |
| Participants.ById | EloUtil.java:60-68 | The keys of the id map are exactly the input ids, and each id maps to its own record. |
| Participants.OthersOfParticipant | EloUtil.java:76-79 | With distinct ids, the inner loop meets exactly n - 1 other participants. |
| WinRate.GetWinRate | EloUtil.java:213-232 | On a hit it returns the cached rate with the cache unchanged. On a miss it returns the formula's rate and adds exactly the keys (a, b) and (b, a), with (b, a) holding 1 - w. The rate is in [0, 1] at scale 4. The pair invariant (both directions present, summing to 1) is kept, and no existing entry changes. Every cached rate stays the formula's rate for its pair or the complement of the formula's rate for the reversed pair. Equal ratings give one half. |
| WinRate.GetLoseRate | EloUtil.java:241-244 | The lose rate is exactly 1 minus the cached win rate, is in [0, 1] at scale 4, and equals the rate cached for the reverse pair. |
| Decimal.RoundQuotient | EloUtil.java:94 | The integer rounding behind setScale and divide. DOWN truncates toward zero. HALF_UP and HALF_DOWN land within one half of the exact quotient, and on a tie round away from zero and toward zero respectively. The sign follows the dividend. |
| Decimal.AddSubtractValue | EloUtil.java:81 | BigDecimal add and subtract are exact: the result's value is the sum or difference of the values, whatever the scales. |
| Decimal.CompareTo | EloUtil.java:130-132 | compareTo is -1, 0 or 1 exactly as the values compare, ignoring scale. |
| Decimal.SetScale | EloUtil.java:243 | setScale to a wider scale keeps the value. Narrowing rounds the unscaled integer by the dropped power of ten under the given mode. |
| Decimal.SetScaleIsExact | EloUtil.java:94 | setScale(4, mode) of a value with at most 4 fraction digits is exact whatever the mode. It is the identity on a scale-4 value, so the HALF_DOWN at line 94 and the HALF_UP at line 243 never round. |
| Decimal.Midpoint | EloUtil.java:133-134 | The midpoint (top - low).divide(2, 4, HALF_UP).add(low) is low + ceil((top - low) / 2) in 0.0001 units, at scale 4. |
| Decimal.Wrap32 | EloUtil.java:160 | Narrowing to int yields a 32-bit value congruent to the input mod 2^32, and leaves values already in range unchanged. |
| Decimal.IntValueOfUnits | EloUtil.java:160 | intValue of a non-negative scale-4 value below 2^31 units is its integer part. |
| Ranks.AccumulateLoses | EloUtil.java:78-92 | The inner loop's sum is the start value plus the lose rate against every other participant. It is exact and at scale 4 once a term is added. The cache keeps the pair invariant and every earlier entry. |
| Ranks.LoseUnitsStable | EloUtil.java:219-220 | A sum read from the cache is unchanged when the cache grows, since cached entries are never overwritten. |
| Ranks.LoseSumMirrorsWinSum | EloUtil.java:252-258 | Under the pair invariant, the sum of P's lose rates equals the sum of the others' cached win rates against P. So the expected rank is the trial rank of the search evaluated at P's own rating. |
| Ranks.LoseUnitsBounds | EloUtil.java:77-81 | The lose rates over k others sum to a value in [0, k]. |
| Ranks.ExpectedRankOf | EloUtil.java:76-95 | A participant's expected rank is exactly 1 plus the sum of its lose rates, at scale 4. It equals 1 plus the others' win rates against it, lies in [1, n], and is exactly 1 for a lone participant. |
| Ranks.FillExpectedRank | EloUtil.java:74-99 | Every participant, in order, gets the expected rank just described, in [1, n]. A single participant gets [1]. The cache keeps the pair invariant and grows only. |
| Ranks.FillTmpRank | EloUtil.java:104-109 | The stage fails exactly when some square-root argument (expected rank times match rank) is negative, naming the first such participant in walk order, since the NaN root cannot become a BigDecimal. Otherwise each temporary rank is the `geoMean` abstraction applied to that participant's expected rank and match rank. |
| Ranks.SqrtDefinedIffRank | EloUtil.java:106 | With an expected rank of at least 1, the square-root argument is non-negative exactly when the match rank is. |
| Search.AccumulateWins | EloUtil.java:253-258 | The comparison loop's sum is 1 plus the win rate of every other participant against the trial rating, exactly, and all those rates stay in the cache. |
| Search.CompareWithTryRating | EloUtil.java:252-264 | The comparison is the sign of (1 + the others' cached win rates against the trial rating) - tmpRank, read from the cache as it is afterwards. |
| Search.StillWide | EloUtil.java:130-132 | The loop condition 0.1 <= top - low holds exactly when the bounds are at least 1000 units apart. |
| Search.Middle | EloUtil.java:133-134 | The midpoint is at scale 4, ceil(width / 2) units above low, and strictly inside the bounds while the width is at least 2 units. |
| Search.SixteenHalvings | EloUtil.java:130-133 | After 16 halvings of the 5000-wide range the width bound is below 0.1, so the loop condition cannot hold a 17th time. |
| Search.Probe | EloUtil.java:133-135 | One probe: the midpoint is low plus half the width rounded up and lies strictly between the bounds, the comparison is the trial-rank sign at the midpoint, and both bounds keep their meaning in the grown cache. |
| Search.Step | EloUtil.java:133-142 | One iteration. A negative comparison moves top to the midpoint, and a positive one moves low. Either way the loop invariant holds one probe on, the new state is the one the search replayed in the grown cache reaches, and the width strictly shrinks. A zero comparison leaves both bounds as they were, ends the search at their rounded-up middle, and the replayed search ends there too. |
| Search.BisectFrom | EloUtil.java:130-153 | The loop, from any state satisfying its invariant: each call tests the loop condition, stops when the bounds are less than 0.1 apart or a comparison is zero, and otherwise goes round again. It ends the way the search replayed in the final cache ends, on a midpoint below 5000, with the outcome facts of Search.Bisect. |
| Search.Bisect | EloUtil.java:127-153 | The loop ends after 1 to 16 iterations. The bounds stay ordered in [0, 5000]. top is 5000 or a midpoint whose comparison was negative, and low is 0 or one whose comparison was positive. The search ends on a zero comparison, with the midpoint exactly the rounded-up middle of bounds still at least 0.1 apart, or with the bounds less than 0.1 apart and the last midpoint one of them. Either way the midpoint is in (0, 5000) and is exactly where the search replayed in the final cache ends, so it is the midpoint computed last. |
| Search.SearchPerformanceRating | EloUtil.java:125-160 | The performance rating is intValue of the midpoint computed last, which is its integer part and lies in [0, 4999]. That midpoint is where the search replayed in the cache as it is afterwards ends. The final bounds and midpoint carry the search facts above, and every cached rate comes from the formula. |
| Search.SearchEndedStable | EloUtil.java:219-220 | A finished search keeps its meaning when the cache grows, since cached entries are never overwritten. |
| Search.LeadsReplay | EloUtil.java:130-153 | A replay of the loop that passes through a state ends where the replay from that state ends. |
| Search.ReplayStable | EloUtil.java:219-220 | A replayed search that ends in one cache ends on the same midpoint in any grown cache, since cached entries are never overwritten. |
| Search.AloneAtRankOne | EloUtil.java:127-160 | A lone participant with temporary rank 1 matches the first midpoint, so the loop breaks at 2500.0000. The performance rating is 2500, and no other value is. |
| Search.AloneBelowRankOne | EloUtil.java:127-160 | A lone participant with temporary rank below 1 sees only positive comparisons, so only low moves. The performance rating is 4999, and no other value is; the never-probed 5000 is not a result. |
| Search.AloneAboveRankOne | EloUtil.java:127-160 | A lone participant with temporary rank above 1 sees only negative comparisons, so only top moves. The performance rating is 0, and no other value is. |
| Search.FillPerformanceRating | EloUtil.java:124-162 | One search per participant, in order, over one shared cache. Participant i's rating is the integer part of the midpoint on which the search for i's own id and temporary rank ends, replayed in the final cache, and lies in [0, 4999]. The cache keeps the pair invariant, grows only, and holds only formula rates. |
| Update.NewRatingScore | EloUtil.java:167-174 | The new rating is the midpoint of the current and performance ratings, so the change equals the remaining gap. It lies between the two and is positive, zero or negative exactly as performance exceeds, equals or falls below the current rating. With both in [0, 5000] the change is at most 2500. Id and match rank are unchanged. |
| Update.FillNewRatingScore | EloUtil.java:167-183 | Every participant is updated with its own performance rating. The id set is unchanged and distinct ids stay distinct. |
| Engine.RunStages | EloUtil.java:185-196 | Running the four stages from an empty cache leaves a cache whose every rate comes from the formula. The run fails exactly when some match rank is negative, naming the first such participant. Otherwise, read in that final cache, every participant gets an expected rank of exactly 1 plus its lose rates, in [1, n] (1 when alone), and the temporary rank from it. Its performance rating in [0, 4999] is the integer part of where its own search ends when replayed, and its record moves half-way to that rating. |
| Engine.CalRating | EloUtil.java:185-204 | calRating on a fresh engine fails exactly on an empty list (EmptyInput), a repeated id (DuplicateUserId naming the earliest clash) or, with distinct ids, a negative match rank (NegativeMatchRank naming the first such participant). Otherwise the result's keys are exactly the input ids. Read in a cache whose every rate comes from the formula, each participant's expected rank is 1 plus its lose rates. Its performance rating in [0, 4999] is the integer part of where its own search ends when replayed, and its id maps to its record moved half-way to that rating, with id and match rank kept. |
| Engine.LoneRating | EloUtil.java:185-204 | A participant alone in the match has expected rank 1. With a temporary rank below 1, as for match rank 0, its performance rating is 4999 and its new rating is half-way between its old rating and 4999. |

## Left out

- **Debug logging and `setDebug`.** Logging only observes.
- **`synchronized` on `calRating`.** It concerns concurrency, not the result.
- **The logistic formula `Math.pow` and its `double` to `BigDecimal`
  conversion.** Floating point is not modelled. The formula is the parameter
  `win`, constrained only by `IsWinModel`. So nothing about how the rate
  depends on the rating gap is stated, for example monotonicity or the
  expected outcome of two- or three-player matches.
- **`fillTmpRank`: `Math.sqrt` and its double rounding.** The model applies
  the parameter `geoMean` to each participant's expected rank and match rank
  (`Ranks.FillTmpRank`), and models only the NaN case of the root. `new BigDecimal(tmpRank)` compares against the exact
  binary value of that double, which `geoMean` is taken to return.
- **`doubleValue` of the expected rank and of each midpoint.** The exact
  decimal value is used. Every scale-4 value in [0, 5000] prints back to the
  same digits, so the cache keys agree.
- **Double arithmetic in `fillNewRatingScore`.** It is modelled over reals,
  so the results are not bit-exact doubles.
- **The text format of cache keys, and Hutool's `NumberUtil.sub`.** Keys are
  pairs of ratings, and `sub` is exact decimal subtraction.
- **`HashMap` iteration order.** The participants are a fixed-order sequence,
  and no claim is made that the result is independent of that order or of
  the cache. The reverse cache entry is 1 - w rather than an independently
  rounded rate, so which pair is computed first can matter.
- **In-place mutation of the caller's `MatchUser` objects, and calling
  `calRating` twice on one engine.** The model returns new records from a
  fresh engine.
- **A `null` matchRank.** It would throw on unboxing; `matchRank` is an
  `int` here.
- Engine.CalRating: does not model the NumberFormatException that a NaN or
  infinite `currentRating` causes. In the source such a rating makes
  `new BigDecimal(rating + "")` throw in `getWinRate` once there are two or
  more participants. Ratings are exact reals here, so there is no such
  rating.
