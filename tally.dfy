/**
 * What both evaluators compute from two parallel columns of integers: the
 * number of positions at which they agree, and that number as a fraction of
 * the number of positions.
 */
module Tally {
  /** The number of positions at which xs and ys hold equal values. */
  function Matches(xs: seq<int>, ys: seq<int>): (n: nat)
    requires |xs| == |ys|
    ensures n <= |xs|
  {
    if xs == [] then 0
    else Matches(xs[..|xs| - 1], ys[..|ys| - 1]) + (if xs[|xs| - 1] == ys[|ys| - 1] then 1 else 0)
  }

  /** One more pair of values adds one to the count exactly when the two are equal. */
  lemma MatchesSnoc(xs: seq<int>, ys: seq<int>, x: int, y: int)
    requires |xs| == |ys|
    ensures Matches(xs + [x], ys + [y]) == Matches(xs, ys) + (if x == y then 1 else 0)
  {
    assert (xs + [x])[..|xs|] == xs;
    assert (ys + [y])[..|ys|] == ys;
  }

  /** Every position agrees exactly when the columns are equal. */
  lemma {:induction false} MatchesFull(xs: seq<int>, ys: seq<int>)
    requires |xs| == |ys|
    ensures Matches(xs, ys) == |xs| <==> xs == ys
  {
    if xs != [] {
      var n := |xs| - 1;
      MatchesFull(xs[..n], ys[..n]);
      assert xs == xs[..n] + [xs[n]] && ys == ys[..n] + [ys[n]];
    }
  }

  /** The positions below n at which xs and ys agree. */
  function MatchSet(xs: seq<int>, ys: seq<int>, n: nat): set<nat>
    requires n <= |xs| && n <= |ys|
  {
    set k: nat | k < n && xs[k] == ys[k]
  }

  /** The count is the number of agreeing positions. */
  lemma {:induction false} MatchesPositions(xs: seq<int>, ys: seq<int>)
    requires |xs| == |ys|
    ensures Matches(xs, ys) == |MatchSet(xs, ys, |xs|)|
  {
    if xs != [] {
      var n := |xs| - 1;
      MatchesPositions(xs[..n], ys[..n]);
      assert MatchSet(xs[..n], ys[..n], n) == MatchSet(xs, ys, n);
      if xs[n] == ys[n] {
        assert MatchSet(xs, ys, n + 1) == MatchSet(xs, ys, n) + {n};
      } else {
        assert MatchSet(xs, ys, n + 1) == MatchSet(xs, ys, n);
      }
    }
  }

  /** `float(correct) / total`, in exact arithmetic. */
  function Ratio(correct: nat, total: nat): (r: real)
    requires total > 0
    ensures correct <= total ==> 0.0 <= r <= 1.0
    ensures r == 1.0 <==> correct == total
  {
    var r := correct as real / total as real;
    assert r * total as real == correct as real;
    r
  }
}
