/** The performance-rating stage: a bisection over [0, 5000] for the rating
    whose trial rank matches the participant's temporary rank.

    The trial rank of a rating r is 1 plus the sum, over every other
    participant Q, of Q's win rate against r. A trial rank below the
    temporary rank means r is too high (the upper bound moves down to the
    midpoint); above it, r is too low (the lower bound moves up); equal stops
    the search. The search ends once the bounds are less than 0.1 apart, and
    the performance rating is the integer part of the last midpoint.
 */
module Search {
  import opened Decimal
  import opened WinRate
  import opened Participants
  import opened Ranks

  /** The upper end of the search, 5000, and its width in 0.0001 units. */
  const MaxRating: Dec := Dec(5000, 0)
  const MaxUnits: int := 50_000_000

  /** The bisection stops once the bounds are closer than 0.1 (1000 units). */
  const Tolerance: Dec := Dec(1, 1)
  const ToleranceUnits: int := 1000

  function Sign(x: real): int
  {
    if x < 0.0 then -1 else if x == 0.0 then 0 else 1
  }

  /** The loop of compareWithTryRating: add to `acc`, in order, the win rate
      of every participant whose id is not `uid` against `rating`. */
  function AccumulateWins(win: (real, real) -> int, c: Cache, qs: seq<MatchUser>, uid: int, rating: real, acc: Dec)
    : (r: Cached<Dec>)
    requires IsWinModel(win) && PairInvariant(c) && FromWin(win, c) && acc.scale <= 4
    ensures PairInvariant(r.cache) && FromWin(win, r.cache) && Extends(c, r.cache) && HasWinKeys(r.cache, qs, uid, rating)
    ensures r.value.scale <= 4 && Units(r.value) == Units(acc) + WinUnits(r.cache, qs, uid, rating)
    decreases |qs|
  {
    if |qs| == 0 then
      Cached(acc, c)
    else if qs[0].userId == uid then
      AccumulateWins(win, c, qs[1..], uid, rating, acc)
    else
      var Cached(w, c1) := GetWinRate(win, c, qs[0].currentRating, rating);
      AddUnits(acc, w);
      var r := AccumulateWins(win, c1, qs[1..], uid, rating, Add(acc, w));
      ExtendsTransitive(c, c1, r.cache);
      r
  }

  /** The sign of (1 + Σ cached win rate of each other participant against
      `rating`) - tmpRank. */
  ghost function TrialSign(c: Cache, ps: seq<MatchUser>, uid: int, tmpRank: real, rating: real): int
    requires HasWinKeys(c, ps, uid, rating)
  {
    Sign((UnitsPerOne + WinUnits(c, ps, uid, rating)) as real / 10000.0 - tmpRank)
  }

  lemma TrialSignStable(c: Cache, c': Cache, ps: seq<MatchUser>, uid: int, tmpRank: real, rating: real)
    requires Extends(c, c') && HasWinKeys(c, ps, uid, rating)
    ensures HasWinKeys(c', ps, uid, rating)
    ensures TrialSign(c', ps, uid, tmpRank, rating) == TrialSign(c, ps, uid, tmpRank, rating)
  {
    WinUnitsStable(c, c', ps, uid, rating);
  }

  /** compareWithTryRating: -1, 0 or 1 as the trial rank at `tryRating` is
      below, equal to or above `tmpRank`. Every rate it used stays in the
      cache, so the answer can be read back from the cache afterwards. */
  function CompareWithTryRating(win: (real, real) -> int, c: Cache, ps: seq<MatchUser>, tmpRank: real, tryRating: real, uid: int)
    : (r: Cached<int>)
    requires IsWinModel(win) && PairInvariant(c) && FromWin(win, c)
    ensures PairInvariant(r.cache) && FromWin(win, r.cache) && Extends(c, r.cache) && HasWinKeys(r.cache, ps, uid, tryRating)
    ensures r.value == TrialSign(r.cache, ps, uid, tmpRank, tryRating)
  {
    var Cached(e, c') := AccumulateWins(win, c, ps, uid, tryRating, Dec(1, 0));
    UnitsValue(e);
    Cached(Sign(Value(e) - tmpRank), c')
  }

  /** An upper bound on the width of the search interval after k halvings:
      ceil(5000 / 2^k), in units. */
  function MaxWidthAfter(k: nat): nat
  {
    if k == 0 then MaxUnits else (MaxWidthAfter(k - 1) + 1) / 2
  }

  lemma {:induction false} MaxWidthAntitone(a: nat, b: nat)
    requires a <= b
    ensures MaxWidthAfter(b) <= MaxWidthAfter(a)
  {
    if a < b {
      MaxWidthAntitone(a, b - 1);
    }
  }

  /** After 16 halvings the interval is narrower than 0.1: the 17th test of
      the loop condition fails. */
  lemma SixteenHalvings(k: nat)
    requires MaxWidthAfter(k) >= ToleranceUnits
    ensures k <= 15
  {
    if k >= 16 {
      assert MaxWidthAfter(1) == 25000000;
      assert MaxWidthAfter(2) == 12500000;
      assert MaxWidthAfter(3) == 6250000;
      assert MaxWidthAfter(4) == 3125000;
      assert MaxWidthAfter(5) == 1562500;
      assert MaxWidthAfter(6) == 781250;
      assert MaxWidthAfter(7) == 390625;
      assert MaxWidthAfter(8) == 195313;
      assert MaxWidthAfter(9) == 97657;
      assert MaxWidthAfter(10) == 48829;
      assert MaxWidthAfter(11) == 24415;
      assert MaxWidthAfter(12) == 12208;
      assert MaxWidthAfter(13) == 6104;
      assert MaxWidthAfter(14) == 3052;
      assert MaxWidthAfter(15) == 1526;
      assert MaxWidthAfter(16) == 763;
      MaxWidthAntitone(16, k);
    }
  }

  /** The loop condition `0.1 <= top - low`: the bounds are still at least
      1000 units apart. */
  function StillWide(low: Dec, top: Dec): (b: bool)
    requires low.scale <= 4 && top.scale <= 4
    ensures b <==> Units(top) - Units(low) >= ToleranceUnits
  {
    WidthTest(low, top);
    CompareTo(Tolerance, Subtract(top, low)) <= 0
  }

  lemma WidthTest(low: Dec, top: Dec)
    requires low.scale <= 4 && top.scale <= 4
    ensures CompareTo(Tolerance, Subtract(top, low)) <= 0 <==> Units(top) - Units(low) >= ToleranceUnits
  {
    var w := Subtract(top, low);
    AddUnits(top, low);
    UnitsValue(w);
    assert Value(Tolerance) == 0.1;
  }

  /** Low plus half the width rounded up, in 0.0001 units at scale 4. */
  function Halfway(low: Dec, top: Dec): Dec
    requires low.scale <= 4 && top.scale <= 4
  {
    Dec(Units(low) + (Units(top) - Units(low) + 1) / 2, 4)
  }

  /** The midpoint `(top - low).divide(2, 4, HALF_UP).add(low)`: low plus
      the half-width rounded up, at scale 4, strictly above low and not
      above top while the interval is at least 2 units wide. */
  function Middle(low: Dec, top: Dec): (m: Dec)
    requires low.scale <= 4 && top.scale <= 4 && Units(low) <= Units(top)
    ensures m.scale == 4
    ensures Units(m) - Units(low) == (Units(top) - Units(low) + 1) / 2
    ensures Units(top) - Units(low) >= 2 ==> Units(low) < Units(m) < Units(top)
    ensures m == Halfway(low, top)
  {
    Midpoint(low, top);
    Add(Divide(Subtract(top, low), Dec(2, 0), 4, HalfUp), low)
  }

  /** The rating a bound or midpoint stands for when it is handed on as a
      trial rating (`doubleValue`): its value, 1/10000 of its unit count. */
  function TryRating(d: Dec): (r: real)
    requires d.scale <= 4
    ensures r == Value(d)
  {
    UnitsValue(d);
    Units(d) as real / 10000.0
  }

  /** The upper bound is 5000 or a rating whose trial rank was below tmpRank. */
  ghost predicate UpperBoundOk(c: Cache, ps: seq<MatchUser>, uid: int, tmpRank: real, top: Dec)
    requires top.scale <= 4
  {
    Units(top) == MaxUnits
    || (HasWinKeys(c, ps, uid, TryRating(top)) && TrialSign(c, ps, uid, tmpRank, TryRating(top)) < 0)
  }

  /** The lower bound is 0 or a rating whose trial rank was above tmpRank. */
  ghost predicate LowerBoundOk(c: Cache, ps: seq<MatchUser>, uid: int, tmpRank: real, low: Dec)
    requires low.scale <= 4
  {
    Units(low) == 0
    || (HasWinKeys(c, ps, uid, TryRating(low)) && TrialSign(c, ps, uid, tmpRank, TryRating(low)) > 0)
  }

  lemma BoundsStable(c: Cache, c': Cache, ps: seq<MatchUser>, uid: int, tmpRank: real, low: Dec, top: Dec)
    requires low.scale <= 4 && top.scale <= 4 && Extends(c, c')
    requires UpperBoundOk(c, ps, uid, tmpRank, top) && LowerBoundOk(c, ps, uid, tmpRank, low)
    ensures UpperBoundOk(c', ps, uid, tmpRank, top) && LowerBoundOk(c', ps, uid, tmpRank, low)
  {
    if Units(top) != MaxUnits {
      TrialSignStable(c, c', ps, uid, tmpRank, TryRating(top));
    }
    if Units(low) != 0 {
      TrialSignStable(c, c', ps, uid, tmpRank, TryRating(low));
    }
  }

  /** Replacing either bound by the midpoint keeps the interval within the
      width bound for one more halving. */
  lemma HalvingStep(lowUnits: int, topUnits: int, midUnits: int, steps: nat)
    requires lowUnits <= topUnits && topUnits - lowUnits <= MaxWidthAfter(steps)
    requires midUnits == lowUnits + (topUnits - lowUnits + 1) / 2
    ensures midUnits - lowUnits <= MaxWidthAfter(steps + 1)
    ensures topUnits - midUnits <= MaxWidthAfter(steps + 1)
  {
  }

  /** One probe of the bisection: the midpoint of the current bounds and
      its comparison with tmpRank. The midpoint lies strictly between the
      bounds, and the bounds keep their meaning in the grown cache. */
  method Probe(win: (real, real) -> int, c: Cache, ps: seq<MatchUser>, uid: int, tmpRank: real, low: Dec, top: Dec)
    returns (mid: Dec, comResult: int, c': Cache)
    requires IsWinModel(win) && PairInvariant(c) && FromWin(win, c)
    requires low.scale <= 4 && top.scale <= 4
    requires 0 <= Units(low) && Units(top) - Units(low) >= ToleranceUnits
    requires UpperBoundOk(c, ps, uid, tmpRank, top) && LowerBoundOk(c, ps, uid, tmpRank, low)
    ensures PairInvariant(c') && FromWin(win, c') && Extends(c, c')
    ensures mid == Halfway(low, top) && Units(low) < Units(mid) < Units(top)
    ensures UpperBoundOk(c', ps, uid, tmpRank, top) && LowerBoundOk(c', ps, uid, tmpRank, low)
    ensures HasWinKeys(c', ps, uid, TryRating(mid)) && comResult == TrialSign(c', ps, uid, tmpRank, TryRating(mid))
  {
    mid := Middle(low, top);
    var r := CompareWithTryRating(win, c, ps, tmpRank, TryRating(mid), uid);
    comResult := r.value;
    c' := r.cache;
    BoundsStable(c, c', ps, uid, tmpRank, low, top);
  }

  /** The bounds are ordered in [0, 5000] and each keeps its meaning. */
  ghost predicate BoundsHold(c: Cache, ps: seq<MatchUser>, uid: int, tmpRank: real, low: Dec, top: Dec)
  {
    && PairInvariant(c)
    && low.scale <= 4 && top.scale <= 4
    && 0 <= Units(low) <= Units(top) <= MaxUnits
    && UpperBoundOk(c, ps, uid, tmpRank, top) && LowerBoundOk(c, ps, uid, tmpRank, low)
  }

  /** What holds before every test of the loop condition, `steps` probes
      in: the bounds hold, they are no further apart than `steps` halvings
      allow, and after the first probe the last midpoint is one of them. */
  ghost predicate SearchInvariant(c: Cache, ps: seq<MatchUser>, uid: int, tmpRank: real,
                                  low: Dec, top: Dec, mid: Dec, steps: nat)
  {
    && BoundsHold(c, ps, uid, tmpRank, low, top)
    && steps <= 16 && Units(top) - Units(low) <= MaxWidthAfter(steps)
    && mid.scale <= 4
    && (steps == 0 ==> mid == Dec(0, 0) && Units(low) == 0 && Units(top) == MaxUnits)
    && (steps > 0 ==> mid.scale == 4 && (mid == low || mid == top) && 0 < Units(mid) < MaxUnits)
    && (steps > 0 ==> HasWinKeys(c, ps, uid, TryRating(mid)))
  }

  /** How a search ends: the bounds hold and the last midpoint lies between
      them at scale 4, above 0 and below 5000, with its rates cached. Either its comparison
      was zero, in which case the loop broke with the bounds it had probed
      (at least 0.1 apart) and the midpoint is exactly their rounded-up
      middle, or the bounds are less than 0.1 apart and the midpoint is one
      of them. */
  ghost predicate SearchEnded(c: Cache, ps: seq<MatchUser>, uid: int, tmpRank: real, low: Dec, top: Dec, mid: Dec)
  {
    && BoundsHold(c, ps, uid, tmpRank, low, top)
    && mid.scale == 4 && Units(low) <= Units(mid) <= Units(top) && 0 < Units(mid) < MaxUnits
    && HasWinKeys(c, ps, uid, TryRating(mid))
    && ((&& TrialSign(c, ps, uid, tmpRank, TryRating(mid)) == 0
         && Units(top) - Units(low) >= ToleranceUnits
         && Units(mid) - Units(low) == (Units(top) - Units(low) + 1) / 2)
        || (Units(top) - Units(low) < ToleranceUnits && (mid == low || mid == top)))
  }

  /** The end of a search after `steps` probes, between 1 and 16. */
  ghost predicate SearchOutcome(c: Cache, ps: seq<MatchUser>, uid: int, tmpRank: real,
                                low: Dec, top: Dec, mid: Dec, steps: nat)
  {
    SearchEnded(c, ps, uid, tmpRank, low, top, mid) && 1 <= steps <= 16
  }

  /** The bisection replayed with every comparison read from cache `c`:
      from bounds `low` and `top`, with `last` the midpoint computed last,
      the midpoint the loop ends on, or None if the rates of a midpoint it
      probes are not in `c`. */
  ghost function Replay(c: Cache, ps: seq<MatchUser>, uid: int, tmpRank: real, low: Dec, top: Dec, last: Dec): (r: Option<Dec>)
    requires low.scale <= 4 && top.scale <= 4 && Units(low) <= Units(top) && last.scale <= 4
    ensures r.Some? ==> r.value.scale <= 4
    decreases Units(top) - Units(low)
  {
    if Units(top) - Units(low) < ToleranceUnits then Some(last)
    else
      var m := Halfway(low, top);
      if !HasWinKeys(c, ps, uid, TryRating(m)) then None
      else if TrialSign(c, ps, uid, tmpRank, TryRating(m)) == 0 then Some(m)
      else if TrialSign(c, ps, uid, tmpRank, TryRating(m)) < 0 then Replay(c, ps, uid, tmpRank, low, m, m)
      else Replay(c, ps, uid, tmpRank, m, top, m)
  }

  /** The whole search for participant `uid`, from 0 and 5000 with
      midpoint 0, replayed in `c`. */
  ghost function ReplayedSearch(c: Cache, ps: seq<MatchUser>, uid: int, tmpRank: real): Option<Dec>
  {
    assert Units(MaxRating) == MaxUnits;
    Replay(c, ps, uid, tmpRank, Dec(0, 0), MaxRating, Dec(0, 0))
  }

  /** Replaying in `c` from bounds `low`, `top` with last midpoint `last`
      reaches bounds `low'`, `top'` with last midpoint `last'`: every
      midpoint probed on the way has its rates in `c` and a non-zero
      comparison. */
  ghost predicate Leads(c: Cache, ps: seq<MatchUser>, uid: int, tmpRank: real,
                        low: Dec, top: Dec, last: Dec, low': Dec, top': Dec, last': Dec)
    requires low.scale <= 4 && top.scale <= 4 && Units(low) <= Units(top)
    decreases Units(top) - Units(low)
  {
    || (low == low' && top == top' && last == last')
    || (&& Units(top) - Units(low) >= ToleranceUnits
        && var m := Halfway(low, top);
        && HasWinKeys(c, ps, uid, TryRating(m))
        && TrialSign(c, ps, uid, tmpRank, TryRating(m)) != 0
        && if TrialSign(c, ps, uid, tmpRank, TryRating(m)) < 0
           then Leads(c, ps, uid, tmpRank, low, m, m, low', top', last')
           else Leads(c, ps, uid, tmpRank, m, top, m, low', top', last'))
  }

  /** The search for `uid` has reached bounds `low`, `top` with last
      midpoint `last`, every comparison on the way read from `c`. */
  ghost predicate FromStart(c: Cache, ps: seq<MatchUser>, uid: int, tmpRank: real, low: Dec, top: Dec, last: Dec)
  {
    assert Units(MaxRating) == MaxUnits;
    Leads(c, ps, uid, tmpRank, Dec(0, 0), MaxRating, Dec(0, 0), low, top, last)
  }

  /** A replay that passes through a state ends where a replay from that
      state ends. */
  lemma {:induction false} LeadsReplay(c: Cache, ps: seq<MatchUser>, uid: int, tmpRank: real,
                                       low: Dec, top: Dec, last: Dec, low': Dec, top': Dec, last': Dec)
    requires low.scale <= 4 && top.scale <= 4 && Units(low) <= Units(top)
    requires low'.scale <= 4 && top'.scale <= 4 && Units(low') <= Units(top') && last.scale <= 4 && last'.scale <= 4
    requires Leads(c, ps, uid, tmpRank, low, top, last, low', top', last')
    ensures Replay(c, ps, uid, tmpRank, low, top, last) == Replay(c, ps, uid, tmpRank, low', top', last')
    decreases Units(top) - Units(low)
  {
    if !(low == low' && top == top' && last == last') {
      var m := Halfway(low, top);
      if TrialSign(c, ps, uid, tmpRank, TryRating(m)) < 0 {
        LeadsReplay(c, ps, uid, tmpRank, low, m, m, low', top', last');
      } else {
        LeadsReplay(c, ps, uid, tmpRank, m, top, m, low', top', last');
      }
    }
  }

  /** A replay keeps its path when the cache grows. */
  lemma {:induction false} LeadsStable(c: Cache, c': Cache, ps: seq<MatchUser>, uid: int, tmpRank: real,
                                       low: Dec, top: Dec, last: Dec, low': Dec, top': Dec, last': Dec)
    requires low.scale <= 4 && top.scale <= 4 && Units(low) <= Units(top) && Extends(c, c')
    requires Leads(c, ps, uid, tmpRank, low, top, last, low', top', last')
    ensures Leads(c', ps, uid, tmpRank, low, top, last, low', top', last')
    decreases Units(top) - Units(low)
  {
    if !(low == low' && top == top' && last == last') {
      var m := Halfway(low, top);
      TrialSignStable(c, c', ps, uid, tmpRank, TryRating(m));
      if TrialSign(c, ps, uid, tmpRank, TryRating(m)) < 0 {
        LeadsStable(c, c', ps, uid, tmpRank, low, m, m, low', top', last');
      } else {
        LeadsStable(c, c', ps, uid, tmpRank, m, top, m, low', top', last');
      }
    }
  }

  /** A replay that reaches a state also reaches the state one non-zero
      comparison further on. */
  lemma {:induction false} LeadsStep(c: Cache, ps: seq<MatchUser>, uid: int, tmpRank: real,
                                     low: Dec, top: Dec, last: Dec, low': Dec, top': Dec, last': Dec)
    requires low.scale <= 4 && top.scale <= 4 && Units(low) <= Units(top)
    requires low'.scale <= 4 && top'.scale <= 4 && Units(top') - Units(low') >= ToleranceUnits
    requires Leads(c, ps, uid, tmpRank, low, top, last, low', top', last')
    requires HasWinKeys(c, ps, uid, TryRating(Halfway(low', top')))
    requires TrialSign(c, ps, uid, tmpRank, TryRating(Halfway(low', top'))) != 0
    ensures var m := Halfway(low', top');
            if TrialSign(c, ps, uid, tmpRank, TryRating(m)) < 0
            then Leads(c, ps, uid, tmpRank, low, top, last, low', m, m)
            else Leads(c, ps, uid, tmpRank, low, top, last, m, top', m)
    decreases Units(top) - Units(low)
  {
    var m' := Halfway(low', top');
    if low == low' && top == top' && last == last' {
      if TrialSign(c, ps, uid, tmpRank, TryRating(m')) < 0 {
        assert Leads(c, ps, uid, tmpRank, low, m', m', low', m', m');
      } else {
        assert Leads(c, ps, uid, tmpRank, m', top, m', m', top', m');
      }
    } else {
      var m := Halfway(low, top);
      if TrialSign(c, ps, uid, tmpRank, TryRating(m)) < 0 {
        LeadsStep(c, ps, uid, tmpRank, low, m, m, low', top', last');
      } else {
        LeadsStep(c, ps, uid, tmpRank, m, top, m, low', top', last');
      }
    }
  }

  /** A replay that ends in `c` ends the same way in any grown cache. */
  lemma {:induction false} ReplayStable(c: Cache, c': Cache, ps: seq<MatchUser>, uid: int, tmpRank: real,
                                        low: Dec, top: Dec, last: Dec)
    requires low.scale <= 4 && top.scale <= 4 && Units(low) <= Units(top) && last.scale <= 4 && Extends(c, c')
    requires Replay(c, ps, uid, tmpRank, low, top, last).Some?
    ensures Replay(c', ps, uid, tmpRank, low, top, last) == Replay(c, ps, uid, tmpRank, low, top, last)
    decreases Units(top) - Units(low)
  {
    if Units(top) - Units(low) >= ToleranceUnits {
      var m := Halfway(low, top);
      TrialSignStable(c, c', ps, uid, tmpRank, TryRating(m));
      if TrialSign(c, ps, uid, tmpRank, TryRating(m)) < 0 {
        ReplayStable(c, c', ps, uid, tmpRank, low, m, m);
      } else if TrialSign(c, ps, uid, tmpRank, TryRating(m)) > 0 {
        ReplayStable(c, c', ps, uid, tmpRank, m, top, m);
      }
    }
  }

  /** A finished search keeps its meaning when the cache grows. */
  lemma SearchEndedStable(c: Cache, c': Cache, ps: seq<MatchUser>, uid: int, tmpRank: real, low: Dec, top: Dec, mid: Dec)
    requires SearchEnded(c, ps, uid, tmpRank, low, top, mid) && Extends(c, c') && PairInvariant(c')
    ensures SearchEnded(c', ps, uid, tmpRank, low, top, mid)
  {
    BoundsStable(c, c', ps, uid, tmpRank, low, top);
    TrialSignStable(c, c', ps, uid, tmpRank, TryRating(mid));
  }

  /** The loop invariant of the bisection, `steps` probes in, over a cache
      grown from `c0` with rates that come from the formula: the state is
      the one the search reaches when replayed in that cache. */
  ghost predicate Searching(win: (real, real) -> int, c0: Cache, c: Cache, ps: seq<MatchUser>, uid: int, tmpRank: real,
                            low: Dec, top: Dec, mid: Dec, steps: nat)
  {
    && FromWin(win, c) && Extends(c0, c) && SearchInvariant(c, ps, uid, tmpRank, low, top, mid, steps)
    && FromStart(c, ps, uid, tmpRank, low, top, mid)
  }

  /** How the bisection ends, over a cache grown from `c0` with rates that
      come from the formula: `mid` is where the search replayed in that
      cache ends. */
  ghost predicate Searched(win: (real, real) -> int, c0: Cache, c: Cache, ps: seq<MatchUser>, uid: int, tmpRank: real,
                           low: Dec, top: Dec, mid: Dec, steps: nat)
  {
    && FromWin(win, c) && Extends(c0, c) && SearchOutcome(c, ps, uid, tmpRank, low, top, mid, steps)
    && ReplayedSearch(c, ps, uid, tmpRank) == Some(mid)
  }

  /** One iteration of the bisection loop: probe the midpoint, then move the
      upper bound down to it on a negative comparison, the lower bound up to
      it on a positive one, and stop on zero with the bounds unchanged. A
      moved bound keeps the loop invariant one probe further on and narrows
      the interval. */
  method Step(win: (real, real) -> int, ghost c0: Cache, c: Cache, ps: seq<MatchUser>, uid: int, tmpRank: real,
              low: Dec, top: Dec, mid: Dec, ghost steps: nat)
    returns (low': Dec, top': Dec, mid': Dec, c': Cache, comResult: int)
    requires IsWinModel(win) && Searching(win, c0, c, ps, uid, tmpRank, low, top, mid, steps)
    requires Units(top) - Units(low) >= ToleranceUnits
    ensures comResult == 0 ==> low' == low && top' == top
    ensures comResult == 0 ==> Searched(win, c0, c', ps, uid, tmpRank, low', top', mid', steps + 1)
    ensures comResult < 0 ==> low' == low && top' == mid'
    ensures comResult > 0 ==> low' == mid' && top' == top
    ensures comResult != 0 ==> Searching(win, c0, c', ps, uid, tmpRank, low', top', mid', steps + 1)
    ensures comResult != 0 ==> Units(top') - Units(low') < Units(top) - Units(low)
  {
    SixteenHalvings(steps);
    mid', comResult, c' := Probe(win, c, ps, uid, tmpRank, low, top);
    ExtendsTransitive(c0, c, c');
    HalvingStep(Units(low), Units(top), Units(mid'), steps);
    assert Units(MaxRating) == MaxUnits;
    LeadsStable(c, c', ps, uid, tmpRank, Dec(0, 0), MaxRating, Dec(0, 0), low, top, mid);
    if comResult == 0 {
      LeadsReplay(c', ps, uid, tmpRank, Dec(0, 0), MaxRating, Dec(0, 0), low, top, mid);
    } else {
      LeadsStep(c', ps, uid, tmpRank, Dec(0, 0), MaxRating, Dec(0, 0), low, top, mid);
    }
    if comResult == 0 {
      low', top' := low, top;
    } else if comResult < 0 {
      low', top' := low, mid';
    } else {
      low', top' := mid', top;
    }
  }

  /** Before the first probe the bounds are 0 and 5000 and the midpoint is
      0, which satisfies the loop invariant. */
  lemma SearchStart(win: (real, real) -> int, c: Cache, ps: seq<MatchUser>, uid: int, tmpRank: real)
    requires PairInvariant(c) && FromWin(win, c)
    ensures Searching(win, c, c, ps, uid, tmpRank, Dec(0, 0), MaxRating, Dec(0, 0), 0)
  {
    assert Units(MaxRating) == MaxUnits;
  }

  /** A loop that ends because the bounds are less than 0.1 apart has made
      at least one probe, so the search outcome holds, and the replayed
      search ends on the same midpoint. */
  lemma NarrowExit(win: (real, real) -> int, c0: Cache, c: Cache, ps: seq<MatchUser>, uid: int, tmpRank: real,
                   low: Dec, top: Dec, mid: Dec, steps: nat)
    requires Searching(win, c0, c, ps, uid, tmpRank, low, top, mid, steps)
    requires Units(top) - Units(low) < ToleranceUnits
    ensures Searched(win, c0, c, ps, uid, tmpRank, low, top, mid, steps)
  {
    assert Units(MaxRating) == MaxUnits;
    LeadsReplay(c, ps, uid, tmpRank, Dec(0, 0), MaxRating, Dec(0, 0), low, top, mid);
  }

  /** The bisection loop of fillPerformanceRating from a state that
      satisfies its invariant, one call per test of the loop condition:
      stop once the bounds are less than 0.1 apart, otherwise take one step
      and stop on a zero comparison or go round again. It ends the way the
      search replayed in the final cache ends. */
  method BisectFrom(win: (real, real) -> int, ghost c0: Cache, c: Cache, ps: seq<MatchUser>, uid: int, tmpRank: real,
                    low: Dec, top: Dec, mid: Dec, ghost steps: nat)
    returns (low': Dec, top': Dec, mid': Dec, c': Cache, ghost steps': nat)
    requires IsWinModel(win) && Searching(win, c0, c, ps, uid, tmpRank, low, top, mid, steps)
    ensures Searched(win, c0, c', ps, uid, tmpRank, low', top', mid', steps')
    ensures ReplayedSearch(c', ps, uid, tmpRank) == Some(mid') && Units(mid') < MaxUnits
    decreases Units(top) - Units(low)
  {
    if !StillWide(low, top) {
      NarrowExit(win, c0, c, ps, uid, tmpRank, low, top, mid, steps);
      return low, top, mid, c, steps;
    }
    var low1, top1, mid1, c1, comResult := Step(win, c0, c, ps, uid, tmpRank, low, top, mid, steps);
    if comResult == 0 {
      return low1, top1, mid1, c1, steps + 1;
    }
    low', top', mid', c', steps' := BisectFrom(win, c0, c1, ps, uid, tmpRank, low1, top1, mid1, steps + 1);
  }

  /** The bisection of fillPerformanceRating, from bounds 0 and 5000 with
      midpoint 0. It takes between 1 and 16 iterations and ends on a zero
      comparison, or once the bounds are less than 0.1 apart with the last
      midpoint one of them. That midpoint is where the search replayed in
      the final cache ends. The ghost `steps` counts the iterations, so the
      bound 1 <= steps <= 16 in `SearchOutcome` is the iteration count's
      bound. */
  method Bisect(win: (real, real) -> int, c: Cache, ps: seq<MatchUser>, uid: int, tmpRank: real)
    returns (low: Dec, top: Dec, mid: Dec, c': Cache, ghost steps: nat)
    requires IsWinModel(win) && PairInvariant(c) && FromWin(win, c)
    ensures FromWin(win, c') && Extends(c, c') && SearchOutcome(c', ps, uid, tmpRank, low, top, mid, steps)
    ensures ReplayedSearch(c', ps, uid, tmpRank) == Some(mid)
  {
    SearchStart(win, c, ps, uid, tmpRank);
    low, top, mid, c', steps := BisectFrom(win, c, c, ps, uid, tmpRank, Dec(0, 0), MaxRating, Dec(0, 0), 0);
  }

  /** fillPerformanceRating for one participant: the bisection, then the
      integer part of the last midpoint, which lies in [0, 4999]. How the
      search ended is `SearchEnded`, and the midpoint is where the search
      replayed in the cache as it is afterwards ends. */
  method SearchPerformanceRating(win: (real, real) -> int, c: Cache, ps: seq<MatchUser>, uid: int, tmpRank: real)
    returns (perf: int, low: Dec, top: Dec, mid: Dec, c': Cache)
    requires IsWinModel(win) && PairInvariant(c) && FromWin(win, c)
    ensures PairInvariant(c') && FromWin(win, c') && Extends(c, c')
    ensures SearchEnded(c', ps, uid, tmpRank, low, top, mid)
    ensures ReplayedSearch(c', ps, uid, tmpRank) == Some(mid)
    ensures perf == IntValue(mid) == Units(mid) / UnitsPerOne && 0 <= perf <= 4999
  {
    ghost var steps;
    low, top, mid, c', steps := Bisect(win, c, ps, uid, tmpRank);
    IntValueOfUnits(mid);
    perf := IntValue(mid);
  }

  /** `perf` is the integer part of the midpoint on which the search for
      participant `uid` with temporary rank `tmpRank` ends, replayed in
      cache `c`. */
  ghost predicate IsPerformanceRating(c: Cache, ps: seq<MatchUser>, uid: int, tmpRank: real, perf: int)
  {
    var r := ReplayedSearch(c, ps, uid, tmpRank);
    r.Some? && perf == Units(r.value) / UnitsPerOne
  }

  /** The searches already done keep their meaning when the cache grows. */
  lemma PerformanceRatingsStable(c: Cache, c': Cache, ps: seq<MatchUser>, tmpRanks: seq<real>, perfs: seq<int>)
    requires |perfs| <= |ps| == |tmpRanks| && Extends(c, c')
    requires forall k :: 0 <= k < |perfs| ==> IsPerformanceRating(c, ps, ps[k].userId, tmpRanks[k], perfs[k])
    ensures forall k :: 0 <= k < |perfs| ==> IsPerformanceRating(c', ps, ps[k].userId, tmpRanks[k], perfs[k])
  {
    forall k | 0 <= k < |perfs|
      ensures IsPerformanceRating(c', ps, ps[k].userId, tmpRanks[k], perfs[k])
    {
      assert IsPerformanceRating(c, ps, ps[k].userId, tmpRanks[k], perfs[k]);
      assert Units(MaxRating) == MaxUnits;
      ReplayStable(c, c', ps, ps[k].userId, tmpRanks[k], Dec(0, 0), MaxRating, Dec(0, 0));
    }
  }

  /** Alone in the match, a participant has no one to compare with: every
      trial rank is 1. */
  lemma AloneTrialSign(c: Cache, u: MatchUser, tmpRank: real, rating: real)
    ensures HasWinKeys(c, [u], u.userId, rating)
    ensures TrialSign(c, [u], u.userId, tmpRank, rating) == Sign(1.0 - tmpRank)
  {
    assert [u][1..] == [];
    assert WinUnits(c, [u], u.userId, rating) == 0;
  }

  /** A lone participant whose temporary rank is 1 matches the very first
      midpoint, so the loop breaks at once with 2500.0000 and the
      performance rating is 2500. */
  lemma AloneAtRankOne(c: Cache, u: MatchUser, perf: int)
    ensures IsPerformanceRating(c, [u], u.userId, 1.0, perf) <==> perf == 2500
  {
    assert Units(MaxRating) == MaxUnits;
    var m := Halfway(Dec(0, 0), MaxRating);
    AloneTrialSign(c, u, 1.0, TryRating(m));
    assert Units(m) == 25_000_000;
  }

  /** Alone with a temporary rank below 1, every comparison is positive, so
      only the lower bound moves and the search ends less than 0.1 below
      the upper bound 5000. */
  lemma {:induction false} AloneClimbs(c: Cache, u: MatchUser, tmpRank: real, low: Dec, top: Dec, last: Dec)
    requires tmpRank < 1.0 && low.scale <= 4 && top.scale <= 4 && last.scale <= 4
    requires Units(low) <= Units(top) == MaxUnits && Units(top) - Units(low) >= ToleranceUnits
    ensures Replay(c, [u], u.userId, tmpRank, low, top, last).Some?
    ensures MaxUnits - ToleranceUnits < Units(Replay(c, [u], u.userId, tmpRank, low, top, last).value) < MaxUnits
    decreases Units(top) - Units(low)
  {
    var m := Halfway(low, top);
    AloneTrialSign(c, u, tmpRank, TryRating(m));
    if Units(top) - Units(m) >= ToleranceUnits {
      AloneClimbs(c, u, tmpRank, m, top, m);
    }
  }

  /** A lone participant whose temporary rank is below 1 (a match rank of
      0 gives sqrt(0) = 0) gets 4999: the never-probed 5000 is not a
      result. */
  lemma AloneBelowRankOne(c: Cache, u: MatchUser, tmpRank: real, perf: int)
    requires tmpRank < 1.0
    ensures IsPerformanceRating(c, [u], u.userId, tmpRank, perf) <==> perf == 4999
  {
    assert Units(MaxRating) == MaxUnits;
    AloneClimbs(c, u, tmpRank, Dec(0, 0), MaxRating, Dec(0, 0));
  }

  /** Alone with a temporary rank above 1, every comparison is negative, so
      only the upper bound moves and the search ends less than 0.1 above
      the lower bound 0. */
  lemma {:induction false} AloneFalls(c: Cache, u: MatchUser, tmpRank: real, low: Dec, top: Dec, last: Dec)
    requires tmpRank > 1.0 && low.scale <= 4 && top.scale <= 4 && last.scale <= 4
    requires 0 == Units(low) && Units(top) >= ToleranceUnits
    ensures Replay(c, [u], u.userId, tmpRank, low, top, last).Some?
    ensures 0 < Units(Replay(c, [u], u.userId, tmpRank, low, top, last).value) < ToleranceUnits
    decreases Units(top) - Units(low)
  {
    var m := Halfway(low, top);
    AloneTrialSign(c, u, tmpRank, TryRating(m));
    if Units(m) - Units(low) >= ToleranceUnits {
      AloneFalls(c, u, tmpRank, low, m, m);
    }
  }

  /** A lone participant whose temporary rank is above 1 gets 0. */
  lemma AloneAboveRankOne(c: Cache, u: MatchUser, tmpRank: real, perf: int)
    requires tmpRank > 1.0
    ensures IsPerformanceRating(c, [u], u.userId, tmpRank, perf) <==> perf == 0
  {
    assert Units(MaxRating) == MaxUnits;
    AloneFalls(c, u, tmpRank, Dec(0, 0), MaxRating, Dec(0, 0));
  }

  /** A new rating found for the next participant extends the ratings found
      so far. */
  lemma AppendPerformanceRating(c: Cache, ps: seq<MatchUser>, tmpRanks: seq<real>, perfs: seq<int>, perf: int)
    requires |perfs| < |ps| == |tmpRanks|
    requires forall k :: 0 <= k < |perfs| ==> IsPerformanceRating(c, ps, ps[k].userId, tmpRanks[k], perfs[k])
    requires IsPerformanceRating(c, ps, ps[|perfs|].userId, tmpRanks[|perfs|], perf)
    ensures forall k :: 0 <= k < |perfs| + 1 ==> IsPerformanceRating(c, ps, ps[k].userId, tmpRanks[k], (perfs + [perf])[k])
  {
    forall k | 0 <= k < |perfs| + 1
      ensures IsPerformanceRating(c, ps, ps[k].userId, tmpRanks[k], (perfs + [perf])[k])
    {
      if k < |perfs| {
        assert (perfs + [perf])[k] == perfs[k];
      } else {
        assert (perfs + [perf])[k] == perf;
      }
    }
  }

  /** fillPerformanceRating: one search per participant, in order, sharing
      the cache. Participant i's rating comes from a search for its own id
      and temporary rank, replayed in the final cache, and lies in
      [0, 4999]. */
  method FillPerformanceRating(win: (real, real) -> int, c: Cache, ps: seq<MatchUser>, tmpRanks: seq<real>)
    returns (perfs: seq<int>, c': Cache)
    requires IsWinModel(win) && PairInvariant(c) && FromWin(win, c) && |tmpRanks| == |ps|
    ensures PairInvariant(c') && FromWin(win, c') && Extends(c, c')
    ensures |perfs| == |ps|
    ensures forall i :: 0 <= i < |ps| ==> 0 <= perfs[i] <= 4999
    ensures forall i :: 0 <= i < |ps| ==> IsPerformanceRating(c', ps, ps[i].userId, tmpRanks[i], perfs[i])
  {
    perfs := [];
    c' := c;
    var i := 0;
    while i < |ps|
      invariant 0 <= i <= |ps| && |perfs| == i
      invariant PairInvariant(c') && FromWin(win, c') && Extends(c, c')
      invariant forall k :: 0 <= k < i ==> 0 <= perfs[k] <= 4999
      invariant forall k :: 0 <= k < i ==> IsPerformanceRating(c', ps, ps[k].userId, tmpRanks[k], perfs[k])
    {
      ghost var before := c';
      var perf, low, top, mid;
      perf, low, top, mid, c' := SearchPerformanceRating(win, c', ps, ps[i].userId, tmpRanks[i]);
      ExtendsTransitive(c, before, c');
      PerformanceRatingsStable(before, c', ps, tmpRanks, perfs);
      assert IsPerformanceRating(c', ps, ps[i].userId, tmpRanks[i], perf);
      AppendPerformanceRating(c', ps, tmpRanks, perfs, perf);
      perfs := perfs + [perf];
      i := i + 1;
    }
  }
}
