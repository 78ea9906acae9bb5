/** The rating engine end to end: construction, then the four stages in
    order over one shared win-rate cache that starts empty, then the result
    keyed by userId. */
module Engine {
  import opened Decimal
  import opened WinRate
  import opened Participants
  import opened Ranks
  import opened Search
  import opened Update

  /** The working record kept per participant: the stage outputs and the
      participant's record as the last stage leaves it. */
  datatype Rating = Rating(expectedRank: Dec, tmpRank: real, performanceRating: int, matchUser: MatchUser)

  /** The working records, one per participant, from the stage outputs
      taken index by index. */
  function Assemble(es: seq<Dec>, tmps: seq<real>, perfs: seq<int>, us: seq<MatchUser>): (r: seq<Rating>)
    requires |tmps| == |es| && |perfs| == |es| && |us| == |es|
    ensures |r| == |es|
    ensures forall i :: 0 <= i < |es| ==> r[i] == Rating(es[i], tmps[i], perfs[i], us[i])
  {
    if |es| == 0 then []
    else [Rating(es[0], tmps[0], perfs[0], us[0])] + Assemble(es[1..], tmps[1..], perfs[1..], us[1..])
  }

  /** What the stages give participant i, read in the cache `c` the
      stages leave behind: an expected rank of 1 plus its lose rates, in
      [1, n]; the temporary rank from it and the match rank; a performance
      rating in [0, 4999], the one the search for this participant's own id
      and temporary rank ends on when replayed in `c`; and the record moved
      half-way to that rating. */
  ghost predicate RatingOf(geoMean: (real, int) -> real, c: Cache, ps: seq<MatchUser>, i: int, rt: Rating)
    requires 0 <= i < |ps|
  {
    && IsExpectedRank(c, ps, i, rt.expectedRank)
    && 1.0 <= Value(rt.expectedRank) <= |ps| as real
    && rt.tmpRank == geoMean(Value(rt.expectedRank), ps[i].matchRank)
    && 0 <= rt.performanceRating <= 4999
    && IsPerformanceRating(c, ps, ps[i].userId, rt.tmpRank, rt.performanceRating)
    && rt.matchUser == NewRatingScore(ps[i], rt.performanceRating)
  }

  /** The records assembled from the stage outputs are what `RatingOf`
      describes, index by index. */
  lemma AssembledRatings(geoMean: (real, int) -> real, c: Cache, ps: seq<MatchUser>,
                         es: seq<Dec>, tmps: seq<real>, perfs: seq<int>, updated: seq<MatchUser>, ratings: seq<Rating>)
    requires |es| == |ps| && |tmps| == |ps| && |perfs| == |ps| && |updated| == |ps|
    requires AllExpectedRanks(c, ps, es)
    requires forall i :: 0 <= i < |ps| ==> tmps[i] == geoMean(Value(es[i]), ps[i].matchRank)
    requires forall i :: 0 <= i < |ps| ==> 0 <= perfs[i] <= 4999 && updated[i] == NewRatingScore(ps[i], perfs[i])
    requires forall i :: 0 <= i < |ps| ==> IsPerformanceRating(c, ps, ps[i].userId, tmps[i], perfs[i])
    requires ratings == Assemble(es, tmps, perfs, updated)
    ensures |ratings| == |ps|
    ensures forall i :: 0 <= i < |ps| ==> updated[i] == ratings[i].matchUser && RatingOf(geoMean, c, ps, i, ratings[i])
  {
  }

  /** The four stages over participants with distinct ids, in order, over
      one cache that starts empty, so that every rate in it comes from the
      formula. The temporary-rank stage fails on the first participant with
      a negative match rank; otherwise every participant gets what
      `RatingOf` describes, read in the final cache `c`. */
  method RunStages(win: (real, real) -> int, geoMean: (real, int) -> real, ps: seq<MatchUser>)
    returns (failure: Option<EloError>, ratings: seq<Rating>, updated: seq<MatchUser>, ghost c: Cache)
    requires IsWinModel(win) && DistinctIds(ps)
    ensures PairInvariant(c) && FromWin(win, c)
    ensures failure.None? <==> forall i :: 0 <= i < |ps| ==> ps[i].matchRank >= 0
    ensures failure.Some? ==>
      && ratings == [] && updated == []
      && exists k :: && 0 <= k < |ps| && ps[k].matchRank < 0
                     && failure.value == NegativeMatchRank(ps[k].userId)
                     && (forall i :: 0 <= i < k ==> ps[i].matchRank >= 0)
    ensures failure.None? ==> |ratings| == |ps| == |updated|
    ensures failure.None? ==> Ids(updated) == Ids(ps) && DistinctIds(updated)
    ensures failure.None? ==> forall i :: 0 <= i < |ps| ==>
      && updated[i] == ratings[i].matchUser && updated[i].userId == ps[i].userId
      && RatingOf(geoMean, c, ps, i, ratings[i])
    ensures failure.None? && |ps| == 1 ==> ratings[0].expectedRank == Dec(UnitsPerOne, 4)
  {
    var empty: Cache := map[];
    var Cached(expected, c1) := FillExpectedRank(win, empty, ps);
    c := c1;
    RanksDefined(ps, expected);
    var tmpRanks := FillTmpRank(geoMean, ps, expected);
    if tmpRanks.Err? {
      return Some(tmpRanks.error), [], [], c;
    }
    var perfs, c2 := FillPerformanceRating(win, c1, ps, tmpRanks.value);
    assert AllExpectedRanks(c1, ps, expected);
    AllExpectedRanksStable(c1, c2, ps, expected);
    c := c2;
    updated := FillNewRatingScore(ps, perfs);
    ratings := Assemble(expected, tmpRanks.value, perfs, updated);
    AssembledRatings(geoMean, c, ps, expected, tmpRanks.value, perfs, updated, ratings);
    failure := None;
  }

  /** With every expected rank at least 1, each square root of fillTmpRank is
      defined exactly when that participant's match rank is not negative. */
  lemma RanksDefined(ps: seq<MatchUser>, es: seq<Dec>)
    requires |es| == |ps|
    requires forall i :: 0 <= i < |ps| ==> 1.0 <= Value(es[i])
    ensures forall i :: 0 <= i < |ps| ==> (SqrtDefined(es[i], ps[i].matchRank) <==> ps[i].matchRank >= 0)
  {
    forall i | 0 <= i < |ps|
      ensures SqrtDefined(es[i], ps[i].matchRank) <==> ps[i].matchRank >= 0
    {
      SqrtDefinedIffRank(es[i], ps[i].matchRank);
    }
  }

  /** calRating on a freshly constructed engine. An empty list or a repeated
      userId is rejected as construction rejects it, and then the first
      participant with a negative match rank is rejected by the
      temporary-rank stage. Otherwise every participant gets an expected
      rank of 1 plus its lose rates (in [1, n], exactly 1 when alone), a
      temporary rank from it and the match rank, a performance rating in
      [0, 4999] from its own search, and a new rating half-way between the old one and the
      performance rating; the result maps each input userId, and nothing
      else, to that participant's updated record. */
  method CalRating(win: (real, real) -> int, geoMean: (real, int) -> real, users: seq<MatchUser>)
    returns (r: Result<map<int, MatchUser>>, ratings: seq<Rating>, ghost c: Cache)
    requires IsWinModel(win)
    ensures r == Err(EmptyInput) <==> |users| == 0
    ensures r.Err? && r.error.DuplicateUserId? <==> |users| > 0 && !DistinctIds(users)
    ensures r.Err? <==> |users| == 0 || !DistinctIds(users) || exists i :: 0 <= i < |users| && users[i].matchRank < 0
    ensures r.Err? && r.error.DuplicateUserId? ==>
      exists i, j :: 0 <= i < j < |users| && users[i].userId == r.error.id && users[j].userId == r.error.id
    ensures |users| > 0 && !DistinctIds(users) ==> r == Err(DuplicateUserId(FirstDuplicate(users).value))
    ensures r.Err? && r.error.NegativeMatchRank? ==>
      exists k :: && 0 <= k < |users| && users[k].matchRank < 0 && users[k].userId == r.error.id
                  && (forall i :: 0 <= i < k ==> users[i].matchRank >= 0)
    ensures r.Err? ==> ratings == []
    ensures PairInvariant(c) && FromWin(win, c)
    ensures r.Ok? ==> r.value.Keys == Ids(users) && |ratings| == |users|
    ensures r.Ok? ==> forall i :: 0 <= i < |users| ==>
      && users[i].userId in r.value
      && r.value[users[i].userId] == ratings[i].matchUser
      && RatingOf(geoMean, c, users, i, ratings[i])
    ensures r.Ok? && |users| == 1 ==> ratings[0].expectedRank == Dec(UnitsPerOne, 4)
  {
    var built := Construct(users);
    if built.Err? {
      return Err(built.error), [], map[];
    }
    var failure, updated;
    failure, ratings, updated, c := RunStages(win, geoMean, built.value);
    if failure.Some? {
      return Err(failure.value), [], c;
    }
    var m := ById(updated);
    OutputMatches(users, ratings, updated, m);
    r := Ok(m);
  }

  /** The result map, built from the updated records, holds exactly the input
      ids, each mapped to that participant's final record. */
  lemma OutputMatches(users: seq<MatchUser>, ratings: seq<Rating>, updated: seq<MatchUser>, m: map<int, MatchUser>)
    requires |ratings| == |users| == |updated| && DistinctIds(updated) && Ids(updated) == Ids(users)
    requires forall i :: 0 <= i < |users| ==> updated[i] == ratings[i].matchUser && updated[i].userId == users[i].userId
    requires m == ById(updated)
    ensures m.Keys == Ids(users)
    ensures forall i :: 0 <= i < |users| ==> users[i].userId in m && m[users[i].userId] == ratings[i].matchUser
  {
  }

  /** A participant alone in the match has expected rank 1, so a temporary
      rank below 1 (sqrt(1 * 0) = 0 for match rank 0) gives performance
      rating 4999 and a rating moved half-way to 4999. */
  lemma LoneRating(geoMean: (real, int) -> real, c: Cache, u: MatchUser, rt: Rating)
    requires RatingOf(geoMean, c, [u], 0, rt) && geoMean(1.0, u.matchRank) < 1.0
    ensures rt.performanceRating == 4999
    ensures rt.matchUser.currentRating == (u.currentRating + 4999.0) / 2.0
  {
    assert Value(rt.expectedRank) == 1.0 && rt.tmpRank < 1.0;
    AloneBelowRankOne(c, u, rt.tmpRank, rt.performanceRating);
    assert rt.matchUser == NewRatingScore(u, 4999);
  }
}
