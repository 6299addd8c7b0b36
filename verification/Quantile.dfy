/** The interpolated quantile (Hyndman and Fan, type 7) and the sort in front of it. */
module Quantile {

  predicate Sorted(s: seq<nat>) {
    forall i, j :: 0 <= i <= j < |s| ==> s[i] <= s[j]
  }

  predicate Bounded(s: seq<nat>, y: nat) {
    forall i :: 0 <= i < |s| ==> s[i] <= y
  }

  function Insert(s: seq<nat>, x: nat): seq<nat> {
    if s == [] || s[|s| - 1] <= x then s + [x] else Insert(s[..|s| - 1], x) + [s[|s| - 1]]
  }

  /** Stands for the library sort. */
  function Sort(s: seq<nat>): seq<nat> {
    if s == [] then [] else Insert(Sort(s[..|s| - 1]), s[|s| - 1])
  }

  lemma {:induction false} InsertBounded(s: seq<nat>, x: nat, y: nat)
    requires Bounded(s, y) && x <= y
    ensures Bounded(Insert(s, x), y)
  {
    if s != [] && s[|s| - 1] > x {
      InsertBounded(s[..|s| - 1], x, y);
    }
  }

  lemma {:induction false} InsertSorted(s: seq<nat>, x: nat)
    requires Sorted(s)
    ensures Sorted(Insert(s, x))
  {
    if s != [] && s[|s| - 1] > x {
      InsertSorted(s[..|s| - 1], x);
      InsertBounded(s[..|s| - 1], x, s[|s| - 1]);
    }
  }

  lemma {:induction false} InsertAdds(s: seq<nat>, x: nat)
    ensures multiset(Insert(s, x)) == multiset(s) + multiset{x}
  {
    if s != [] && s[|s| - 1] > x {
      InsertAdds(s[..|s| - 1], x);
      assert s == s[..|s| - 1] + [s[|s| - 1]];
    }
  }

  lemma {:induction false} SortSorts(s: seq<nat>)
    ensures Sorted(Sort(s)) && multiset(Sort(s)) == multiset(s) && |Sort(s)| == |s|
  {
    if s != [] {
      var front := s[..|s| - 1];
      SortSorts(front);
      InsertSorted(Sort(front), s[|s| - 1]);
      InsertAdds(Sort(front), s[|s| - 1]);
      assert s == front + [s[|s| - 1]];
      assert |Sort(s)| == |multiset(Sort(s))| == |multiset(s)| == |s|;
    }
  }

  /** The closure of LatencySnapshot, from its position h on: it interpolates between neighbours. */
  function AtHeight(sorted: seq<nat>, h: real): real
    requires sorted != []
  {
    var hf := h.Floor as real;
    var hi := h.Floor - 1;
    if hi < 0 then sorted[0] as real else
    if hi >= |sorted| - 1 then sorted[|sorted| - 1] as real else
    var lower, upper := sorted[hi] as real, sorted[hi + 1] as real;
    lower + (h - hf) * (upper - lower)
  }

  /** The position of quantile q on the zero-based scale of n sample indices. */
  function Position(n: nat, q: real): real {
    (n as real - 1.0) * q
  }

  function At(sorted: seq<nat>, q: real): real {
    if |sorted| == 0 then 0.0 else AtHeight(sorted, 1.0 + Position(|sorted|, q))
  }

  lemma ProductNonNegative(a: real, b: real)
    requires a >= 0.0 && b >= 0.0
    ensures a * b >= 0.0
  {
  }

  lemma PositionInRange(n: nat, q: real)
    requires n > 0 && 0.0 <= q <= 1.0
    ensures 0.0 <= Position(n, q) <= (n - 1) as real
  {
    var m := n as real - 1.0;
    ProductNonNegative(m, q);
    ProductNonNegative(m, 1.0 - q);
    assert m * (1.0 - q) == m - m * q;
  }

  lemma PositionMonotone(n: nat, q: real, q': real)
    requires n > 0 && q <= q'
    ensures Position(n, q) <= Position(n, q')
  {
    ProductNonNegative(n as real - 1.0, q' - q);
    assert (n as real - 1.0) * (q' - q) == Position(n, q') - Position(n, q);
  }

  /** On every closed segment between neighbouring indices the quantile is the straight line
      through the two samples; this pins it down for all q in [0, 1], ends included. */
  lemma OnSegment(s: seq<nat>, pos: real, j: nat)
    requires j + 1 < |s| && j as real <= pos <= (j + 1) as real
    ensures AtHeight(s, 1.0 + pos) == Line(s[j] as real, s[j + 1] as real, pos - j as real)
  {
    var h := 1.0 + pos;
    if pos < (j + 1) as real {
      assert h.Floor == j + 1;
    } else {
      assert h.Floor == j + 2;
      assert (pos - j as real) * (s[j + 1] as real - s[j] as real) == s[j + 1] as real - s[j] as real;
    }
  }

  function Segment(n: nat, pos: real): (j: int)
    requires n > 1 && 0.0 <= pos <= (n - 1) as real
    ensures 0 <= j < n - 1 && j as real <= pos <= (j + 1) as real
  {
    if pos.Floor == n - 1 then n - 2 else pos.Floor
  }

  /** The straight line from lo at 0 to hi at 1. */
  function Line(lo: real, hi: real, g: real): real {
    lo + g * (hi - lo)
  }

  /** The straight line from lo to hi is monotone and stays between its ends. */
  lemma OnLine(lo: real, hi: real, g: real, g': real)
    requires lo <= hi && 0.0 <= g <= g' <= 1.0
    ensures lo <= Line(lo, hi, g) <= Line(lo, hi, g') <= hi
  {
    var d := hi - lo;
    ProductNonNegative(g, d);
    ProductNonNegative(g' - g, d);
    ProductNonNegative(1.0 - g', d);
    assert (1.0 - g') * d == d - g' * d;
    assert (g' - g) * d == g' * d - g * d;
  }

  lemma WithinSegment(s: seq<nat>, pos: real, j: nat)
    requires Sorted(s) && j + 1 < |s| && j as real <= pos <= (j + 1) as real
    ensures s[j] as real <= AtHeight(s, 1.0 + pos) <= s[j + 1] as real
  {
    hide AtHeight, Line;
    assert s[j] <= s[j + 1];
    OnSegment(s, pos, j);
    OnLine(s[j] as real, s[j + 1] as real, pos - j as real, pos - j as real);
  }

  lemma MonotoneInSegment(s: seq<nat>, pos: real, pos': real, j: nat)
    requires Sorted(s) && j + 1 < |s| && j as real <= pos <= pos' <= (j + 1) as real
    ensures AtHeight(s, 1.0 + pos) <= AtHeight(s, 1.0 + pos')
  {
    hide AtHeight, Line;
    assert s[j] <= s[j + 1];
    OnSegment(s, pos, j);
    OnSegment(s, pos', j);
    OnLine(s[j] as real, s[j + 1] as real, pos - j as real, pos' - j as real);
  }

  /** The interpolation formula itself, for every q: on the line between the two samples around the
      position of q, or at the last sample, which a single sample is. */
  lemma IsType7(s: seq<nat>, q: real, j: nat)
    requires j < |s| && j as real <= Position(|s|, q) <= (j + 1) as real
    requires j + 1 == |s| ==> Position(|s|, q) == j as real
    ensures var upper := if j + 1 < |s| then s[j + 1] else s[j];
      At(s, q) == s[j] as real + (Position(|s|, q) - j as real) * (upper as real - s[j] as real)
  {
    var pos := Position(|s|, q);
    if j + 1 < |s| {
      OnSegment(s, pos, j);
    } else {
      assert (1.0 + pos).Floor == j + 1;
    }
  }

  /** Quantiles lie between the least and the greatest sample. */
  lemma WithinSamples(s: seq<nat>, q: real)
    requires |s| > 0 && Sorted(s) && 0.0 <= q <= 1.0
    ensures s[0] as real <= At(s, q) <= s[|s| - 1] as real
  {
    if |s| > 1 {
      PositionInRange(|s|, q);
      var pos := Position(|s|, q);
      var j := Segment(|s|, pos);
      WithinSegment(s, pos, j);
      assert s[0] <= s[j] && s[j + 1] <= s[|s| - 1];
    }
  }

  /** A larger q never gives a smaller quantile, across segment boundaries too. */
  lemma Monotone(s: seq<nat>, q: real, q': real)
    requires Sorted(s) && 0.0 <= q <= q' <= 1.0
    ensures At(s, q) <= At(s, q')
  {
    if |s| > 1 {
      PositionInRange(|s|, q);
      PositionInRange(|s|, q');
      PositionMonotone(|s|, q, q');
      MonotoneInPosition(s, Position(|s|, q), Position(|s|, q'));
    }
  }

  lemma MonotoneInPosition(s: seq<nat>, pos: real, pos': real)
    requires |s| > 1 && Sorted(s) && 0.0 <= pos <= pos' <= (|s| - 1) as real
    ensures AtHeight(s, 1.0 + pos) <= AtHeight(s, 1.0 + pos')
  {
    var j, j' := Segment(|s|, pos), Segment(|s|, pos');
    if pos' <= (j + 1) as real {
      MonotoneInSegment(s, pos, pos', j);
    } else {
      WithinSegment(s, pos, j);
      WithinSegment(s, pos', j');
      assert j < j';
      assert s[j + 1] <= s[j'];
    }
  }
}
