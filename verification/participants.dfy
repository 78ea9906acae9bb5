/** Participants of one match and the construction of the rating engine.

    The engine keys its working records by userId. Its map's iteration order
    is modelled by the order of a sequence: every stage walks the
    participants in that order.
 */
module Participants {

  /** One competitor: pre-match rating, finishing rank, and the rating change
      the engine writes back. */
  datatype MatchUser = MatchUser(userId: int, currentRating: real, matchRank: int, changeScore: real)

  /** The ways calRating fails. Construction rejects an empty list
      (IllegalArgumentException) and two users with one userId (the
      IllegalStateException of Collectors.toMap). The temporary-rank stage
      rejects a participant whose square-root argument is negative: the
      square root is NaN, and turning NaN into a BigDecimal throws
      NumberFormatException. */
  datatype EloError = EmptyInput | DuplicateUserId(id: int) | NegativeMatchRank(id: int)

  datatype Result<+T> = Ok(value: T) | Err(error: EloError)

  datatype Option<+T> = None | Some(value: T)

  predicate DistinctIds(ps: seq<MatchUser>)
  {
    forall i, j :: 0 <= i < j < |ps| ==> ps[i].userId != ps[j].userId
  }

  function Ids(ps: seq<MatchUser>): set<int>
  {
    set u | u in ps :: u.userId
  }

  /** The first userId that a left-to-right scan finds already taken, as the
      collector that builds the userId map reports it: the id of the user at
      the first position whose id an earlier user already holds. */
  function FirstDuplicate(ps: seq<MatchUser>): (r: Option<int>)
    ensures r.None? <==> DistinctIds(ps)
    ensures r.Some? ==> exists i, j :: 0 <= i < j < |ps| && ps[i].userId == r.value && ps[j].userId == r.value
  {
    if |ps| == 0 then None
    else
      var front := ps[..|ps| - 1];
      var last := ps[|ps| - 1];
      match FirstDuplicate(front)
      case Some(id) =>
        var i, j :| 0 <= i < j < |front| && front[i].userId == id && front[j].userId == id;
        assert ps[i] == front[i] && ps[j] == front[j];
        Some(id)
      case None =>
        if last.userId in Ids(front) then
          var u :| u in front && u.userId == last.userId;
          var i :| 0 <= i < |front| && front[i] == u;
          assert ps[i] == u;
          Some(last.userId)
        else
          assert forall i :: 0 <= i < |front| ==> front[i].userId in Ids(front);
          None
  }

  /** The reported id is the earliest clash: the prefix before position j
      has distinct ids and the user at j repeats one of them. */
  lemma {:induction false} FirstDuplicateIsEarliest(ps: seq<MatchUser>)
    ensures FirstDuplicate(ps).Some? ==>
      exists j :: && 0 < j < |ps| && DistinctIds(ps[..j])
                  && ps[j].userId == FirstDuplicate(ps).value && ps[j].userId in Ids(ps[..j])
  {
    if |ps| > 0 {
      var front := ps[..|ps| - 1];
      match FirstDuplicate(front)
      case Some(id) =>
        FirstDuplicateIsEarliest(front);
        var j :| && 0 < j < |front| && DistinctIds(front[..j])
                 && front[j].userId == id && front[j].userId in Ids(front[..j]);
        assert ps[..j] == front[..j] && ps[j] == front[j];
      case None =>
        assert ps[..|ps| - 1] == front;
    }
  }

  /** Building the engine: an empty list is rejected first, then a repeated
      userId; otherwise there is exactly one working record per user, each
      wrapping that user's record unchanged. */
  function Construct(users: seq<MatchUser>): (r: Result<seq<MatchUser>>)
    ensures r == Err(EmptyInput) <==> |users| == 0
    ensures r.Ok? <==> |users| > 0 && DistinctIds(users)
    ensures r.Err? && r.error.DuplicateUserId? ==>
      exists i, j :: 0 <= i < j < |users| && users[i].userId == r.error.id && users[j].userId == r.error.id
    ensures |users| > 0 && !DistinctIds(users) ==> r == Err(DuplicateUserId(FirstDuplicate(users).value))
    ensures r.Ok? ==> r.value == users && Ids(r.value) == Ids(users)
  {
    if |users| == 0 then Err(EmptyInput)
    else
      match FirstDuplicate(users)
      case Some(id) => Err(DuplicateUserId(id))
      case None => Ok(users)
  }

  /** The records of a sequence with distinct ids, keyed by userId. */
  function ById(ps: seq<MatchUser>): (m: map<int, MatchUser>)
    requires DistinctIds(ps)
    ensures m.Keys == Ids(ps)
    ensures forall i :: 0 <= i < |ps| ==> ps[i].userId in m && m[ps[i].userId] == ps[i]
  {
    map i | 0 <= i < |ps| :: ps[i].userId := ps[i]
  }

  /** How many records of `ps` belong to someone other than `uid`. */
  function OthersCount(ps: seq<MatchUser>, uid: int): nat
  {
    if |ps| == 0 then 0
    else (if ps[0].userId != uid then 1 else 0) + OthersCount(ps[1..], uid)
  }

  /** With distinct ids, every participant has exactly n - 1 others. */
  lemma {:induction false} OthersOfParticipant(ps: seq<MatchUser>, i: int)
    requires DistinctIds(ps) && 0 <= i < |ps|
    ensures OthersCount(ps, ps[i].userId) == |ps| - 1
  {
    if i == 0 {
      NoOthersMissing(ps[1..], ps[0].userId);
    } else {
      assert ps[1..][i - 1] == ps[i];
      OthersOfParticipant(ps[1..], i - 1);
    }
  }

  lemma {:induction false} NoOthersMissing(ps: seq<MatchUser>, uid: int)
    requires forall j :: 0 <= j < |ps| ==> ps[j].userId != uid
    ensures OthersCount(ps, uid) == |ps|
  {
    if |ps| > 0 {
      NoOthersMissing(ps[1..], uid);
    }
  }
}
