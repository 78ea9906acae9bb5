/** Expected rank and temporary rank of every participant.

    The expected rank of P is 1 plus the sum, over every other participant Q,
    of P's lose rate against Q. Sums are kept exact: each term is a scale-4
    decimal, so the sum is a count of 0.0001 units. The sums below are
    stated over the cache as it stands after the computation, which holds
    every rate that was used, unchanged.
 */
module Ranks {
  import opened Decimal
  import opened WinRate
  import opened Participants

  /** The cache holds P's rate against every other participant. */
  ghost predicate HasLoseKeys(c: Cache, qs: seq<MatchUser>, uid: int, rating: real)
  {
    forall j :: 0 <= j < |qs| && qs[j].userId != uid ==> (rating, qs[j].currentRating) in c
  }

  /** The cache holds every other participant's rate against `rating`. */
  ghost predicate HasWinKeys(c: Cache, qs: seq<MatchUser>, uid: int, rating: real)
  {
    forall j :: 0 <= j < |qs| && qs[j].userId != uid ==> (qs[j].currentRating, rating) in c
  }

  /** Σ over the others Q of 1 - cache[(rating, Q)], in units. */
  ghost function LoseUnits(c: Cache, qs: seq<MatchUser>, uid: int, rating: real): int
    requires HasLoseKeys(c, qs, uid, rating)
  {
    if |qs| == 0 then 0
    else
      (if qs[0].userId != uid then UnitsPerOne - c[(rating, qs[0].currentRating)].unscaled else 0)
      + LoseUnits(c, qs[1..], uid, rating)
  }

  /** Σ over the others Q of cache[(Q, rating)], in units. */
  ghost function WinUnits(c: Cache, qs: seq<MatchUser>, uid: int, rating: real): int
    requires HasWinKeys(c, qs, uid, rating)
  {
    if |qs| == 0 then 0
    else
      (if qs[0].userId != uid then c[(qs[0].currentRating, rating)].unscaled else 0)
      + WinUnits(c, qs[1..], uid, rating)
  }

  /** Sums read from a cache do not change when the cache grows. */
  lemma {:induction false} LoseUnitsStable(c: Cache, c': Cache, qs: seq<MatchUser>, uid: int, rating: real)
    requires Extends(c, c') && HasLoseKeys(c, qs, uid, rating)
    ensures HasLoseKeys(c', qs, uid, rating)
    ensures LoseUnits(c', qs, uid, rating) == LoseUnits(c, qs, uid, rating)
  {
    if |qs| > 0 {
      LoseUnitsStable(c, c', qs[1..], uid, rating);
    }
  }

  lemma {:induction false} WinUnitsStable(c: Cache, c': Cache, qs: seq<MatchUser>, uid: int, rating: real)
    requires Extends(c, c') && HasWinKeys(c, qs, uid, rating)
    ensures HasWinKeys(c', qs, uid, rating)
    ensures WinUnits(c', qs, uid, rating) == WinUnits(c, qs, uid, rating)
  {
    if |qs| > 0 {
      WinUnitsStable(c, c', qs[1..], uid, rating);
    }
  }

  /** Under the pair invariant, the sum of P's lose rates equals the sum of
      the others' win rates against P: the forward expected rank and the
      trial rank of the search are one quantity seen from the two sides. */
  lemma {:induction false} LoseSumMirrorsWinSum(c: Cache, qs: seq<MatchUser>, uid: int, rating: real)
    requires PairInvariant(c) && HasLoseKeys(c, qs, uid, rating)
    ensures HasWinKeys(c, qs, uid, rating)
    ensures LoseUnits(c, qs, uid, rating) == WinUnits(c, qs, uid, rating)
  {
    if |qs| > 0 {
      LoseSumMirrorsWinSum(c, qs[1..], uid, rating);
    }
  }

  /** Each rate lies in [0, 1], so a sum over k others lies in [0, k]. */
  lemma {:induction false} LoseUnitsBounds(c: Cache, qs: seq<MatchUser>, uid: int, rating: real)
    requires PairInvariant(c) && HasLoseKeys(c, qs, uid, rating)
    ensures 0 <= LoseUnits(c, qs, uid, rating) <= UnitsPerOne * OthersCount(qs, uid)
  {
    if |qs| > 0 {
      LoseUnitsBounds(c, qs[1..], uid, rating);
    }
  }

  /** The inner loop of fillExpectedRank: add to `acc`, in order, the lose
      rate of `rating` against every participant whose id is not `uid`. */
  function AccumulateLoses(win: (real, real) -> int, c: Cache, qs: seq<MatchUser>, uid: int, rating: real, acc: Dec)
    : (r: Cached<Dec>)
    requires IsWinModel(win) && PairInvariant(c) && FromWin(win, c) && acc.scale <= 4
    ensures PairInvariant(r.cache) && FromWin(win, r.cache) && Extends(c, r.cache) && HasLoseKeys(r.cache, qs, uid, rating)
    ensures r.value.scale <= 4 && Units(r.value) == Units(acc) + LoseUnits(r.cache, qs, uid, rating)
    ensures OthersCount(qs, uid) == 0 ==> r.value == acc
    ensures OthersCount(qs, uid) > 0 ==> r.value.scale == 4
    decreases |qs|
  {
    if |qs| == 0 then
      Cached(acc, c)
    else if qs[0].userId == uid then
      AccumulateLoses(win, c, qs[1..], uid, rating, acc)
    else
      var Cached(lose, c1) := GetLoseRate(win, c, rating, qs[0].currentRating);
      AddUnits(acc, lose);
      var r := AccumulateLoses(win, c1, qs[1..], uid, rating, Add(acc, lose));
      ExtendsTransitive(c, c1, r.cache);
      r
  }

  /** P's expected rank as fillExpectedRank stores it: exactly 1 plus the sum
      of P's lose rates against the others, at scale 4, which is also 1 plus
      the others' cached win rates against P. */
  ghost predicate IsExpectedRank(c: Cache, ps: seq<MatchUser>, i: int, e: Dec)
    requires 0 <= i < |ps|
  {
    && HasLoseKeys(c, ps, ps[i].userId, ps[i].currentRating)
    && HasWinKeys(c, ps, ps[i].userId, ps[i].currentRating)
    && e.scale == 4
    && e.unscaled == UnitsPerOne + LoseUnits(c, ps, ps[i].userId, ps[i].currentRating)
    && e.unscaled == UnitsPerOne + WinUnits(c, ps, ps[i].userId, ps[i].currentRating)
  }

  /** One outer iteration of fillExpectedRank: the sum starts at 1, the lose
      rates are added, and the result is set to scale 4 with HALF_DOWN, which
      never rounds. With n participants the expected rank lies in [1, n]; a
      lone participant gets exactly 1. */
  function ExpectedRankOf(win: (real, real) -> int, c: Cache, ps: seq<MatchUser>, i: int): (r: Cached<Dec>)
    requires IsWinModel(win) && PairInvariant(c) && FromWin(win, c) && DistinctIds(ps) && 0 <= i < |ps|
    ensures PairInvariant(r.cache) && FromWin(win, r.cache) && Extends(c, r.cache)
    ensures IsExpectedRank(r.cache, ps, i, r.value)
    ensures UnitsPerOne <= r.value.unscaled <= UnitsPerOne * |ps|
    ensures 1.0 <= Value(r.value) <= |ps| as real
    ensures |ps| == 1 ==> r.value == Dec(UnitsPerOne, 4)
  {
    var Cached(sum, c') := AccumulateLoses(win, c, ps, ps[i].userId, ps[i].currentRating, Dec(1, 0));
    SetScaleIsExact(sum, HalfDown);
    LoseUnitsBounds(c', ps, ps[i].userId, ps[i].currentRating);
    LoseSumMirrorsWinSum(c', ps, ps[i].userId, ps[i].currentRating);
    OthersOfParticipant(ps, i);
    var e := SetScale(sum, 4, HalfDown);
    UnitsValue(e);
    Cached(e, c')
  }

  /** Every entry of `es` is the expected rank of the participant at the same
      index, and lies in [1, n]. */
  ghost predicate AllExpectedRanks(c: Cache, ps: seq<MatchUser>, es: seq<Dec>)
    requires |es| <= |ps|
  {
    forall k :: 0 <= k < |es| ==> IsExpectedRank(c, ps, k, es[k]) && 1.0 <= Value(es[k]) <= |ps| as real
  }

  lemma AllExpectedRanksStable(c: Cache, c': Cache, ps: seq<MatchUser>, es: seq<Dec>)
    requires |es| <= |ps| && Extends(c, c') && AllExpectedRanks(c, ps, es)
    ensures AllExpectedRanks(c', ps, es)
  {
    forall k | 0 <= k < |es|
      ensures IsExpectedRank(c', ps, k, es[k])
    {
      assert IsExpectedRank(c, ps, k, es[k]);
      LoseUnitsStable(c, c', ps, ps[k].userId, ps[k].currentRating);
      WinUnitsStable(c, c', ps, ps[k].userId, ps[k].currentRating);
    }
  }

  /** The outer loop of fillExpectedRank over the first n participants, in
      order, threading the cache. */
  function ExpectedRanksUpTo(win: (real, real) -> int, c: Cache, ps: seq<MatchUser>, n: int): (r: Cached<seq<Dec>>)
    requires IsWinModel(win) && PairInvariant(c) && FromWin(win, c) && DistinctIds(ps) && 0 <= n <= |ps|
    ensures PairInvariant(r.cache) && FromWin(win, r.cache) && Extends(c, r.cache)
    ensures |r.value| == n
    ensures AllExpectedRanks(r.cache, ps, r.value)
    decreases n
  {
    if n == 0 then
      Cached([], c)
    else
      var Cached(es, c1) := ExpectedRanksUpTo(win, c, ps, n - 1);
      var Cached(e, c2) := ExpectedRankOf(win, c1, ps, n - 1);
      AllExpectedRanksStable(c1, c2, ps, es);
      ExtendsTransitive(c, c1, c2);
      AppendExpectedRank(c2, ps, es, e);
      Cached(es + [e], c2)
  }

  lemma AppendExpectedRank(c: Cache, ps: seq<MatchUser>, es: seq<Dec>, e: Dec)
    requires |es| < |ps| && AllExpectedRanks(c, ps, es)
    requires IsExpectedRank(c, ps, |es|, e) && 1.0 <= Value(e) <= |ps| as real
    ensures AllExpectedRanks(c, ps, es + [e])
  {
    var es' := es + [e];
    forall k | 0 <= k < |es'|
      ensures IsExpectedRank(c, ps, k, es'[k]) && 1.0 <= Value(es'[k]) <= |ps| as real
    {
      if k < |es| {
        assert es'[k] == es[k];
      }
    }
  }

  /** fillExpectedRank: every participant's expected rank, in [1, n]; a lone
      participant's is exactly 1. */
  function FillExpectedRank(win: (real, real) -> int, c: Cache, ps: seq<MatchUser>): (r: Cached<seq<Dec>>)
    requires IsWinModel(win) && PairInvariant(c) && FromWin(win, c) && DistinctIds(ps)
    ensures PairInvariant(r.cache) && FromWin(win, r.cache) && Extends(c, r.cache)
    ensures |r.value| == |ps|
    ensures forall i :: 0 <= i < |ps| ==> IsExpectedRank(r.cache, ps, i, r.value[i])
    ensures forall i :: 0 <= i < |ps| ==> 1.0 <= Value(r.value[i]) <= |ps| as real
    ensures |ps| == 1 ==> r.value == [Dec(UnitsPerOne, 4)]
  {
    var r := ExpectedRanksUpTo(win, c, ps, |ps|);
    if |ps| == 1 then
      LoneParticipant(r.cache, ps, r.value);
      r
    else
      r
  }

  lemma LoneParticipant(c: Cache, ps: seq<MatchUser>, es: seq<Dec>)
    requires |es| == |ps| == 1 && IsExpectedRank(c, ps, 0, es[0])
    ensures es == [Dec(UnitsPerOne, 4)]
  {
    assert OthersCount(ps, ps[0].userId) == 0;
    assert LoseUnits(c, ps, ps[0].userId, ps[0].currentRating) == 0;
  }

  /** The square-root argument of fillTmpRank, expected rank times match
      rank, is not negative, so the square root is a number and not NaN. */
  predicate SqrtDefined(e: Dec, matchRank: int)
  {
    Value(e) * matchRank as real >= 0.0
  }

  /** An expected rank is at least 1, so the square root is defined exactly
      when the match rank is not negative. */
  lemma SqrtDefinedIffRank(e: Dec, matchRank: int)
    requires Value(e) >= 1.0
    ensures SqrtDefined(e, matchRank) <==> matchRank >= 0
  {
    if matchRank < 0 {
      assert Value(e) * matchRank as real <= matchRank as real;
    }
  }

  /** fillTmpRank: participants are visited in order. The first one whose
      square-root argument is negative stops the stage, because the NaN root
      cannot become a BigDecimal. When every argument is defined, each
      temporary rank is the geometric-mean routine applied to that
      participant's expected rank and match rank. The routine (a double
      square root rounded HALF_UP to four digits) is the parameter
      `geoMean`. */
  function FillTmpRank(geoMean: (real, int) -> real, ps: seq<MatchUser>, es: seq<Dec>): (r: Result<seq<real>>)
    requires |es| == |ps|
    ensures r.Ok? <==> forall i :: 0 <= i < |ps| ==> SqrtDefined(es[i], ps[i].matchRank)
    ensures r.Err? ==>
      exists k :: && 0 <= k < |ps| && !SqrtDefined(es[k], ps[k].matchRank)
                  && r.error == NegativeMatchRank(ps[k].userId)
                  && (forall i :: 0 <= i < k ==> SqrtDefined(es[i], ps[i].matchRank))
    ensures r.Ok? ==> |r.value| == |ps|
    ensures r.Ok? ==> forall i :: 0 <= i < |ps| ==> r.value[i] == geoMean(Value(es[i]), ps[i].matchRank)
  {
    if |ps| == 0 then Ok([])
    else if !SqrtDefined(es[0], ps[0].matchRank) then Err(NegativeMatchRank(ps[0].userId))
    else
      match FillTmpRank(geoMean, ps[1..], es[1..])
      case Err(e) =>
        ghost var k :| && 0 <= k < |ps| - 1 && !SqrtDefined(es[1..][k], ps[1..][k].matchRank)
                       && e == NegativeMatchRank(ps[1..][k].userId)
                       && (forall i :: 0 <= i < k ==> SqrtDefined(es[1..][i], ps[1..][i].matchRank));
        assert forall i :: 1 <= i < k + 1 ==> es[i] == es[1..][i - 1] && ps[i] == ps[1..][i - 1];
        Err(e)
      case Ok(tail) =>
        assert forall i :: 1 <= i < |ps| ==> es[i] == es[1..][i - 1] && ps[i] == ps[1..][i - 1];
        Ok([geoMean(Value(es[0]), ps[0].matchRank)] + tail)
  }
}
