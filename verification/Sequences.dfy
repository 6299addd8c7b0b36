/** Subsequences. */
module Sequences {

  predicate Increasing(s: seq<nat>) {
    forall i, j :: 0 <= i < j < |s| ==> s[i] < s[j]
  }

  /** The elements of xs are found in ys at the increasing places at. */
  ghost predicate Embeds<T>(xs: seq<T>, ys: seq<T>, at: seq<nat>) {
    && |at| == |xs|
    && Increasing(at)
    && forall i :: 0 <= i < |at| ==> at[i] < |ys| && ys[at[i]] == xs[i]
  }

  /** xs can be had from ys by leaving elements out. */
  ghost predicate IsSubsequence<T>(xs: seq<T>, ys: seq<T>) {
    exists at :: Embeds(xs, ys, at)
  }

  function IndexOf(ys: seq<nat>, y: nat): (i: nat)
    requires y in ys
    ensures i < |ys| && ys[i] == y
  {
    if ys[|ys| - 1] == y then |ys| - 1 else
    assert ys == ys[..|ys| - 1] + [ys[|ys| - 1]];
    IndexOf(ys[..|ys| - 1], y)
  }

  /** For increasing sequences, being a subsequence is containment. */
  lemma IncreasingSubsequence(xs: seq<nat>, ys: seq<nat>)
    requires Increasing(xs) && Increasing(ys) && forall x :: x in xs ==> x in ys
    ensures IsSubsequence(xs, ys)
  {
    var at := seq(|xs|, i requires 0 <= i < |xs| => IndexOf(ys, xs[i]));
    forall i, j | 0 <= i < j < |at| ensures at[i] < at[j] {
      assert xs[i] < xs[j];
      assert ys[at[i]] == xs[i] && ys[at[j]] == xs[j];
    }
    assert Embeds(xs, ys, at);
  }

  lemma EmbedsAppend<T>(xs: seq<T>, ys: seq<T>, at: seq<nat>, y: T)
    requires Embeds(xs, ys, at)
    ensures Embeds(xs, ys + [y], at) && Embeds(xs + [y], ys + [y], at + [|ys|])
  {
  }

  /** zs is found in a row in xs from place q on. */
  predicate InRow(zs: seq<nat>, xs: seq<nat>, q: nat) {
    q + |zs| <= |xs| && forall i :: 0 <= i < |zs| ==> zs[i] == xs[q + i]
  }

  /** If an increasing selection xs of ys has all of a stretch zs of ys, it has them in a row. */
  lemma {:induction false} StretchStays(xs: seq<nat>, ys: seq<nat>, p: nat, zs: seq<nat>) returns (q: nat)
    requires Increasing(xs) && Increasing(ys) && forall x :: x in xs ==> x in ys
    requires InRow(zs, ys, p) && forall z :: z in zs ==> z in xs
    ensures InRow(zs, xs, q)
    decreases |zs|
  {
    if zs == [] {
      q := 0;
    } else {
      var n := |zs| - 1;
      q := StretchStays(xs, ys, p, zs[..n]);
      var r := IndexOf(xs, zs[n]);
      if n == 0 {
        q := r;
      } else {
        assert zs[..n][n - 1] == zs[n - 1];
        NothingBetween(xs, ys, q + n - 1, r, p + n - 1);
        assert forall i :: 0 <= i < n ==> zs[i] == zs[..n][i];
      }
    }
  }

  /** Neighbours of ys that are in xs are neighbours there. */
  lemma NothingBetween(xs: seq<nat>, ys: seq<nat>, i: nat, r: nat, j: nat)
    requires Increasing(xs) && Increasing(ys) && forall x :: x in xs ==> x in ys
    requires i < |xs| && r < |xs| && j + 1 < |ys| && xs[i] == ys[j] && xs[r] == ys[j + 1]
    ensures r == i + 1
  {
    assert i < r && xs[i + 1] in ys;
    var k := IndexOf(ys, xs[i + 1]);
    assert ys[j] < ys[k];
    assert j < k && ys[j + 1] <= ys[k];
  }
}
