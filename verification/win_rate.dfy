/** Pairwise win and lose rates with their memo cache.

    A win rate is a decimal at scale 4 in [0, 1]. The logistic formula that
    produces it, 1 / (1 + 10^((b - a) / 400)) rounded HALF_DOWN to four
    digits, is computed in floating point; here it is the parameter `win`,
    giving the rounded rate as a count of 0.0001 units.

    The cache is keyed by the pair of ratings (the decimal text of each double
    rating, which determines the rating exactly). A miss stores the computed
    rate under (a, b) and its complement 1 - w under (b, a).
 */
module WinRate {
  import opened Decimal

  type Key = (real, real)

  type Cache = map<Key, Dec>

  /** A value computed through the cache, with the cache as it stands
      afterwards. */
  datatype Cached<T> = Cached(value: T, cache: Cache)

  /** What the rounded logistic formula guarantees: a rate between 0 and 1,
      and exactly one half between equal ratings. */
  ghost predicate IsWinModel(win: (real, real) -> int)
  {
    && (forall a, b :: 0 <= win(a, b) <= UnitsPerOne)
    && (forall a :: win(a, a) == UnitsPerOne / 2)
  }

  /** An entry is a scale-4 rate in [0, 1]. */
  predicate IsRate(d: Dec)
  {
    d.scale == 4 && 0 <= d.unscaled <= UnitsPerOne
  }

  /** Every cached pair has its reverse cached too, and the two rates add up
      to exactly 1. */
  ghost predicate PairInvariant(c: Cache)
  {
    forall a, b :: (a, b) in c ==>
      && (b, a) in c
      && IsRate(c[(a, b)])
      && c[(a, b)].unscaled + c[(b, a)].unscaled == UnitsPerOne
  }

  /** Every cached rate comes from the formula: it is the formula's rate
      for its own pair, or the complement of the formula's rate for the
      reversed pair. */
  ghost predicate FromWin(win: (real, real) -> int, c: Cache)
  {
    forall a, b :: (a, b) in c ==>
      c[(a, b)].unscaled == win(a, b) || c[(a, b)].unscaled == UnitsPerOne - win(b, a)
  }

  /** `c'` keeps every entry of `c` unchanged. */
  ghost predicate Extends(c: Cache, c': Cache)
  {
    forall k :: k in c ==> k in c' && c'[k] == c[k]
  }

  lemma ExtendsTransitive(c: Cache, c': Cache, c'': Cache)
    requires Extends(c, c') && Extends(c', c'')
    ensures Extends(c, c'')
  {
  }

  /** getWinRate(a, b): a hit returns the stored rate and leaves the cache
      alone; a miss computes the rate, stores it under (a, b) and its
      complement under (b, a). Either way the pair invariant is kept and no
      existing entry changes. Between equal ratings both writes go to one
      key, the complement last; the rate returned and the rate cached agree
      because the rate is one half. */
  function GetWinRate(win: (real, real) -> int, c: Cache, a: real, b: real): (r: Cached<Dec>)
    requires IsWinModel(win) && PairInvariant(c) && FromWin(win, c)
    ensures PairInvariant(r.cache) && FromWin(win, r.cache) && Extends(c, r.cache)
    ensures (a, b) in r.cache && r.cache[(a, b)] == r.value && IsRate(r.value)
    ensures (a, b) in c ==> r.value == c[(a, b)] && r.cache == c
    ensures (a, b) !in c ==> r.value == Dec(win(a, b), 4)
    ensures (a, b) !in c ==> r.cache.Keys == c.Keys + {(a, b), (b, a)}
    ensures (b, a) in r.cache && r.cache[(b, a)].unscaled == UnitsPerOne - r.value.unscaled
    ensures a == b ==> r.value.unscaled == UnitsPerOne / 2
  {
    if (a, b) in c then
      Cached(c[(a, b)], c)
    else
      var w := Dec(win(a, b), 4);
      var flip := Subtract(Dec(1, 0), w);
      assert flip == Dec(UnitsPerOne - w.unscaled, 4);
      var c' := c[(a, b) := w][(b, a) := flip];
      assert (b, a) !in c;
      Cached(w, c')
  }

  /** getLoseRate(a, b) = (1 - getWinRate(a, b)).setScale(4, HALF_UP): exactly
      the complement of the win rate, which is also the rate cached for the
      reverse pair. */
  function GetLoseRate(win: (real, real) -> int, c: Cache, a: real, b: real): (r: Cached<Dec>)
    requires IsWinModel(win) && PairInvariant(c) && FromWin(win, c)
    ensures PairInvariant(r.cache) && FromWin(win, r.cache) && Extends(c, r.cache)
    ensures (a, b) in r.cache && (b, a) in r.cache
    ensures IsRate(r.value)
    ensures r.value.unscaled + r.cache[(a, b)].unscaled == UnitsPerOne
    ensures r.value == r.cache[(b, a)]
  {
    var Cached(w, c') := GetWinRate(win, c, a, b);
    var lose := Subtract(Dec(1, 0), w);
    assert lose == Dec(UnitsPerOne - w.unscaled, 4);
    SetScaleIsExact(lose, HalfUp);
    Cached(SetScale(lose, 4, HalfUp), c')
  }
}
