/** The rating update: each participant moves half-way from the current
    rating toward the performance rating. The source does this in double
    arithmetic; here it is exact over the reals. */
module Update {
  import opened Participants

  /** fillNewRatingScore for one participant: the change is half the gap
      between performance and current rating, and the new rating is the old
      one plus the change. So the new rating is the midpoint of the two, it
      lies between them, and it moves toward the performance rating exactly
      when they differ. Id and match rank are kept. */
  function NewRatingScore(u: MatchUser, perf: int): (r: MatchUser)
    ensures r.userId == u.userId && r.matchRank == u.matchRank
    ensures r.currentRating == (u.currentRating + perf as real) / 2.0
    ensures r.changeScore == r.currentRating - u.currentRating
    ensures perf as real - r.currentRating == r.currentRating - u.currentRating
    ensures u.currentRating <= perf as real ==> u.currentRating <= r.currentRating <= perf as real
    ensures perf as real <= u.currentRating ==> perf as real <= r.currentRating <= u.currentRating
    ensures r.changeScore > 0.0 <==> perf as real > u.currentRating
    ensures r.changeScore == 0.0 <==> perf as real == u.currentRating
    ensures 0.0 <= u.currentRating <= 5000.0 && 0 <= perf <= 5000 ==> -2500.0 <= r.changeScore <= 2500.0
  {
    var change := (perf as real - u.currentRating) / 2.0;
    u.(changeScore := change, currentRating := u.currentRating + change)
  }

  /** fillNewRatingScore: every participant updated with its own performance
      rating, in order. The ids are those of the input. */
  function FillNewRatingScore(ps: seq<MatchUser>, perfs: seq<int>): (r: seq<MatchUser>)
    requires |perfs| == |ps|
    ensures |r| == |ps|
    ensures forall i :: 0 <= i < |ps| ==> r[i] == NewRatingScore(ps[i], perfs[i])
    ensures Ids(r) == Ids(ps)
    ensures DistinctIds(ps) ==> DistinctIds(r)
  {
    var r := seq(|ps|, i requires 0 <= i < |ps| => NewRatingScore(ps[i], perfs[i]));
    SameIds(ps, r);
    r
  }

  /** Two sequences with the same id at every index have the same id set. */
  lemma SameIds(ps: seq<MatchUser>, qs: seq<MatchUser>)
    requires |ps| == |qs| && forall i :: 0 <= i < |ps| ==> ps[i].userId == qs[i].userId
    ensures Ids(ps) == Ids(qs)
  {
    forall id | id in Ids(ps) ensures id in Ids(qs) {
      var u :| u in ps && u.userId == id;
      var i :| 0 <= i < |ps| && ps[i] == u;
      assert qs[i] in qs;
    }
    forall id | id in Ids(qs) ensures id in Ids(ps) {
      var u :| u in qs && u.userId == id;
      var i :| 0 <= i < |qs| && qs[i] == u;
      assert ps[i] in ps;
    }
  }
}
