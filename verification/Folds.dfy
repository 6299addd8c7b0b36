/** Totals over sequences and sizes of maps, and how they move when one element changes. */
module Folds {

  ghost function Tally<T>(xs: seq<T>, f: T -> int): int {
    if xs == [] then 0 else Tally(xs[..|xs| - 1], f) + f(xs[|xs| - 1])
  }

  lemma {:induction false} TallyUpdate<T>(xs: seq<T>, i: nat, x: T, f: T -> int)
    requires i < |xs|
    ensures Tally(xs[i := x], f) == Tally(xs, f) - f(xs[i]) + f(x)
  {
    var front := xs[..|xs| - 1];
    if i < |xs| - 1 {
      TallyUpdate(front, i, x, f);
      assert xs[i := x][..|xs| - 1] == front[i := x];
    } else {
      assert xs[i := x][..|xs| - 1] == front;
    }
  }

  lemma TallyAppend<T>(xs: seq<T>, x: T, f: T -> int)
    ensures Tally(xs + [x], f) == Tally(xs, f) + f(x)
  {
    assert (xs + [x])[..|xs|] == xs;
  }

  lemma {:induction false} TallyZero<T>(xs: seq<T>, f: T -> int)
    requires forall i :: 0 <= i < |xs| ==> f(xs[i]) == 0
    ensures Tally(xs, f) == 0
  {
    if xs != [] {
      TallyZero(xs[..|xs| - 1], f);
    }
  }

  /** A total of non-negative terms is at least each of them, and positive only if one of them is. */
  lemma {:induction false} TallyMember<T>(xs: seq<T>, i: nat, f: T -> int)
    requires i < |xs| && forall x :: f(x) >= 0
    ensures 0 <= f(xs[i]) <= Tally(xs, f)
  {
    TallyNonNegative(xs[..|xs| - 1], f);
    if i < |xs| - 1 {
      TallyMember(xs[..|xs| - 1], i, f);
    }
  }

  lemma {:induction false} TallyNonNegative<T>(xs: seq<T>, f: T -> int)
    requires forall x :: f(x) >= 0
    ensures Tally(xs, f) >= 0
  {
    if xs != [] {
      TallyNonNegative(xs[..|xs| - 1], f);
    }
  }

  lemma {:induction false} TallySource<T>(xs: seq<T>, f: T -> int) returns (i: nat)
    requires (forall x :: f(x) >= 0) && Tally(xs, f) > 0
    ensures i < |xs| && f(xs[i]) > 0
  {
    if f(xs[|xs| - 1]) > 0 {
      i := |xs| - 1;
    } else {
      i := TallySource(xs[..|xs| - 1], f);
    }
  }

  /** How often x occurs in q. */
  ghost function Occurrences<T>(q: seq<T>, x: T): nat {
    if q == [] then 0 else Occurrences(q[..|q| - 1], x) + if q[|q| - 1] == x then 1 else 0
  }

  lemma OccurrencesAppend<T>(q: seq<T>, y: T, x: T)
    ensures Occurrences(q + [y], x) == Occurrences(q, x) + if y == x then 1 else 0
  {
    assert (q + [y])[..|q|] == q;
  }

  lemma {:induction false} OccurrencesTail<T>(q: seq<T>, x: T)
    requires q != []
    ensures Occurrences(q, x) == Occurrences(q[1..], x) + if q[0] == x then 1 else 0
  {
    if |q| > 1 {
      OccurrencesTail(q[..|q| - 1], x);
      assert q[..|q| - 1][1..] == q[1..][..|q| - 2];
    }
  }

  lemma {:induction false} OccurrencesPositive<T>(q: seq<T>, x: T)
    ensures Occurrences(q, x) > 0 <==> x in q
  {
    if q != [] {
      OccurrencesPositive(q[..|q| - 1], x);
      assert q == q[..|q| - 1] + [q[|q| - 1]];
    }
  }

  lemma MapSizes<K, V>(m: map<K, V>, k: K, v: V)
    ensures |m[k := v]| == |m| + if k in m then 0 else 1
    ensures |m - {k}| == |m| - if k in m then 1 else 0
  {
    assert m[k := v].Keys == m.Keys + {k};
    assert (m - {k}).Keys == m.Keys - {k};
    assert |m[k := v].Keys| == |m[k := v]| && |m.Keys| == |m| && |(m - {k}).Keys| == |m - {k}|;
  }
}
