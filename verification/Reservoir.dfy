/** The reservoir: which stream positions survive, and how often. */
module Reservoir {

  /** The draw made for the item at position n once the reservoir of size k is full lies in [0, n]. */
  ghost predicate IsDraws(k: nat, n: nat, draws: seq<nat>) {
    && |draws| == (if n > k then n - k else 0)
    && forall j :: 0 <= j < |draws| ==> draws[j] <= k + j
  }

  /** Stream positions held after n items, slot by slot. */
  function Slots(k: nat, n: nat, draws: seq<nat>): (s: seq<nat>)
    requires |draws| == if n > k then n - k else 0
    ensures |s| == if n < k then n else k
    decreases n
  {
    if n == 0 then [] else
    if n <= k then Slots(k, n - 1, []) + [n - 1] else
    var d := draws[n - 1 - k];
    var s := Slots(k, n - 1, draws[..n - 1 - k]);
    if d < k then s[d := n - 1] else s
  }

  /** The reservoir never holds one stream item twice, and holds only items of the stream. */
  lemma {:induction false} SlotsInjective(k: nat, n: nat, draws: seq<nat>)
    requires |draws| == if n > k then n - k else 0
    ensures forall a :: 0 <= a < |Slots(k, n, draws)| ==> Slots(k, n, draws)[a] < n
    ensures forall a, b :: 0 <= a < b < |Slots(k, n, draws)| ==> Slots(k, n, draws)[a] != Slots(k, n, draws)[b]
    decreases n
  {
    if n > 0 {
      SlotsInjective(k, n - 1, if n <= k then [] else draws[..n - 1 - k]);
    }
  }

  function Factorial(n: nat): nat {
    if n == 0 then 1 else n * Factorial(n - 1)
  }

  /** All ways the random draws can fall for a stream of n >= k items. */
  ghost function AllDraws(k: nat, n: nat): (all: set<seq<nat>>)
    requires k <= n
    ensures forall ds :: ds in all ==> |ds| == n - k
    decreases n
  {
    if n == k then {[]} else
    set ds, d | ds in AllDraws(k, n - 1) && 0 <= d < n :: ds + [d]
  }

  /** The draws that leave item i in the reservoir. */
  ghost function Keeping(k: nat, n: nat, i: nat): set<seq<nat>>
    requires k <= n
  {
    set ds | ds in AllDraws(k, n) && i in Slots(k, n, ds)
  }

  lemma {:induction false} AllDrawsAreDraws(k: nat, n: nat, ds: seq<nat>)
    requires k <= n
    ensures ds in AllDraws(k, n) <==> IsDraws(k, n, ds)
    decreases n
  {
    if n > k {
      AllDrawsSplit(k, n, ds);
      if |ds| == n - k {
        var front := ds[..n - k - 1];
        AllDrawsAreDraws(k, n - 1, front);
        IsDrawsSplit(k, n, ds);
      }
    }
  }

  lemma IsDrawsSplit(k: nat, n: nat, ds: seq<nat>)
    requires k < n && |ds| == n - k
    ensures IsDraws(k, n, ds) <==> IsDraws(k, n - 1, ds[..|ds| - 1]) && ds[|ds| - 1] < n
  {
    var front := ds[..|ds| - 1];
    forall j | 0 <= j < |front| ensures front[j] == ds[j] {
    }
    if IsDraws(k, n - 1, front) && ds[|ds| - 1] < n {
      forall j | 0 <= j < |ds| ensures ds[j] <= k + j {
        assert j < |front| ==> front[j] <= k + j;
      }
    }
  }

  ghost function Range(n: nat): (s: set<nat>)
    ensures |s| == n
    ensures forall d: nat :: d in s <==> d < n
  {
    if n == 0 then {} else Range(n - 1) + {n - 1}
  }

  /** Prepending one fixed sequence does not merge distinct last elements. */
  lemma {:induction false} ExtensionsCount(s: seq<nat>, lasts: set<nat>)
    ensures |set d | d in lasts :: s + [d]| == |lasts|
    decreases lasts
  {
    var ext := set d | d in lasts :: s + [d];
    if lasts != {} {
      var d :| d in lasts;
      ExtensionsCount(s, lasts - {d});
      var rest := set e | e in lasts - {d} :: s + [e];
      assert ext == rest + {s + [d]};
      assert s + [d] !in rest by {
        forall e | e in lasts - {d} ensures s + [e] != s + [d] {
          assert (s + [e])[|s|] == e && (s + [d])[|s|] == d;
        }
      }
    } else {
      assert ext == {};
    }
  }

  /** If every s in S extends into T by exactly w last elements, T has |S| * w elements. */
  lemma {:induction false} FibreCount(S: set<seq<nat>>, T: set<seq<nat>>, lasts: seq<nat> -> set<nat>, w: nat)
    requires forall t :: t in T <==> |t| > 0 && t[..|t| - 1] in S && t[|t| - 1] in lasts(t[..|t| - 1])
    requires forall s :: s in S ==> |lasts(s)| == w
    ensures |T| == |S| * w
    decreases S
  {
    if S != {} {
      var s :| s in S;
      var T1 := set t | t in T && t[..|t| - 1] == s;
      FibreCount(S - {s}, T - T1, lasts, w);
      FibreOf(T, T1, s, lasts(s));
      SplitCount(S, T, s, T1, w);
    } else {
      NoFibres(T);
    }
  }

  lemma NoFibres(T: set<seq<nat>>)
    requires forall t :: t !in T
    ensures |T| == 0
  {
    assert T == {};
  }

  lemma SplitCount(S: set<seq<nat>>, T: set<seq<nat>>, s: seq<nat>, T1: set<seq<nat>>, w: nat)
    requires s in S && T1 <= T && |T1| == w && |T - T1| == |S - {s}| * w
    ensures |T| == |S| * w
  {
    assert |T| == |T - T1| + |T1|;
    assert |S| == |S - {s}| + 1;
    assert (|S - {s}| + 1) * w == |S - {s}| * w + w;
  }

  lemma FibreOf(T: set<seq<nat>>, T1: set<seq<nat>>, s: seq<nat>, lasts: set<nat>)
    requires forall t :: t in T1 <==> t in T && |t| > 0 && t[..|t| - 1] == s
    requires forall t :: |t| > 0 && t[..|t| - 1] == s ==> (t in T <==> t[|t| - 1] in lasts)
    ensures |T1| == |lasts|
  {
    ExtensionsCount(s, lasts);
    var ext := set d | d in lasts :: s + [d];
    forall t ensures t in T1 <==> t in ext {
      if t in T1 {
        assert t == s + [t[|t| - 1]];
      }
      if t in ext {
        var d :| d in lasts && t == s + [d];
        assert t[..|t| - 1] == s;
      }
    }
    assert T1 == ext;
  }

  lemma AllDrawsSplit(k: nat, n: nat, t: seq<nat>)
    requires k < n
    ensures t in AllDraws(k, n) <==> |t| > 0 && t[..|t| - 1] in AllDraws(k, n - 1) && t[|t| - 1] < n
  {
    if |t| > 0 && t[..|t| - 1] in AllDraws(k, n - 1) && t[|t| - 1] < n {
      assert t == t[..|t| - 1] + [t[|t| - 1]];
    }
    if t in AllDraws(k, n) {
      var ds, d :| ds in AllDraws(k, n - 1) && 0 <= d < n && t == ds + [d];
      assert t[..|t| - 1] == ds;
    }
  }

  lemma AllDrawsStep(k: nat, n: nat)
    requires k < n
    ensures |AllDraws(k, n)| == |AllDraws(k, n - 1)| * n
  {
    var lasts := (s: seq<nat>) => Range(n);
    forall t ensures t in AllDraws(k, n) <==>
      |t| > 0 && t[..|t| - 1] in AllDraws(k, n - 1) && t[|t| - 1] in lasts(t[..|t| - 1])
    {
      AllDrawsSplit(k, n, t);
    }
    FibreCount(AllDraws(k, n - 1), AllDraws(k, n), lasts, n);
  }

  /** There are n! / k! possible runs. */
  lemma {:induction false} AllDrawsCount(k: nat, n: nat)
    requires k <= n
    ensures |AllDraws(k, n)| * Factorial(k) == Factorial(n)
    decreases n
  {
    if n > k {
      AllDrawsCount(k, n - 1);
      AllDrawsStep(k, n);
      CountTimes(|AllDraws(k, n - 1)|, |AllDraws(k, n)|, Factorial(k), n);
    }
  }

  lemma CountTimes(before: nat, after: nat, f: nat, n: nat)
    requires n > 0 && after == before * n && before * f == Factorial(n - 1)
    ensures after * f == Factorial(n)
  {
    Reorder(f, before, n);
  }

  /** The newest item survives its own draw in k of the n cases. */
  lemma KeepingNewest(k: nat, n: nat)
    requires k < n
    ensures |Keeping(k, n, n - 1)| == |AllDraws(k, n - 1)| * k
  {
    var lasts := (s: seq<nat>) => Range(k);
    forall t ensures t in Keeping(k, n, n - 1) <==>
      |t| > 0 && t[..|t| - 1] in AllDraws(k, n - 1) && t[|t| - 1] in lasts(t[..|t| - 1])
    {
      AllDrawsSplit(k, n, t);
      if t in AllDraws(k, n) {
        SlotsInjective(k, n - 1, t[..|t| - 1]);
        var s := Slots(k, n - 1, t[..|t| - 1]);
        if t[|t| - 1] < k {
          assert s[t[|t| - 1] := n - 1][t[|t| - 1]] == n - 1;
        }
      }
    }
    FibreCount(AllDraws(k, n - 1), Keeping(k, n, n - 1), lasts, k);
  }

  /** The draws, among n, that spare item i held in the reservoir left by ds. */
  ghost function Sparing(k: nat, n: nat, i: nat, ds: seq<nat>): (spare: set<nat>)
    requires k < n
  {
    if |ds| != n - 1 - k then {} else
    set d | d in Range(n) && !(d < k && Slots(k, n - 1, ds)[d] == i)
  }

  lemma SparingCount(k: nat, n: nat, i: nat, ds: seq<nat>)
    requires k < n && ds in Keeping(k, n - 1, i)
    ensures |Sparing(k, n, i, ds)| == n - 1
  {
    SlotsInjective(k, n - 1, ds);
    var s := Slots(k, n - 1, ds);
    var slot :| 0 <= slot < k && s[slot] == i;
    forall d | 0 <= d < k ensures s[d] == i <==> d == slot {
    }
    AllButOne(n, Sparing(k, n, i, ds), slot);
  }

  lemma AllButOne(n: nat, spare: set<nat>, slot: nat)
    requires slot < n && forall d: nat :: d in spare <==> d < n && d != slot
    ensures |spare| == n - 1
  {
    assert spare == Range(n) - {slot};
  }

  lemma KeepingOlderSplit(k: nat, n: nat, i: nat, t: seq<nat>)
    requires k < n && i < n - 1
    ensures t in Keeping(k, n, i) <==>
      |t| > 0 && t[..|t| - 1] in Keeping(k, n - 1, i) && t[|t| - 1] in Sparing(k, n, i, t[..|t| - 1])
  {
    AllDrawsSplit(k, n, t);
    if |t| == n - k {
      SurvivesIff(k, n, t, i);
    }
  }

  /** An older item is evicted by exactly one of the n possible draws. */
  lemma KeepingOlder(k: nat, n: nat, i: nat)
    requires k < n && i < n - 1
    ensures |Keeping(k, n, i)| == |Keeping(k, n - 1, i)| * (n - 1)
  {
    var S, T := Keeping(k, n - 1, i), Keeping(k, n, i);
    forall t ensures t in T <==> |t| > 0 && t[..|t| - 1] in S && t[|t| - 1] in Sparing(k, n, i, t[..|t| - 1]) {
      KeepingOlderSplit(k, n, i, t);
    }
    forall ds | ds in S ensures |Sparing(k, n, i, ds)| == n - 1 {
      SparingCount(k, n, i, ds);
    }
    SparingFibres(k, n, i, S, T);
  }

  lemma SparingFibres(k: nat, n: nat, i: nat, S: set<seq<nat>>, T: set<seq<nat>>)
    requires k < n
    requires forall t :: t in T <==> |t| > 0 && t[..|t| - 1] in S && t[|t| - 1] in Sparing(k, n, i, t[..|t| - 1])
    requires forall ds :: ds in S ==> |Sparing(k, n, i, ds)| == n - 1
    ensures |T| == |S| * (n - 1)
  {
    FibreCount(S, T, ds => Sparing(k, n, i, ds), n - 1);
  }

  lemma SurvivesIff(k: nat, n: nat, t: seq<nat>, i: nat)
    requires k < n && i < n - 1 && |t| == n - k
    ensures var s := Slots(k, n - 1, t[..|t| - 1]);
      i in Slots(k, n, t) <==> i in s && !(t[|t| - 1] < k && s[t[|t| - 1]] == i)
  {
    SlotsInjective(k, n - 1, t[..|t| - 1]);
    var s, d := Slots(k, n - 1, t[..|t| - 1]), t[|t| - 1];
    if i in s && d < k && s[d] != i {
      var a :| 0 <= a < |s| && s[a] == i;
      assert s[d := n - 1][a] == i;
    }
    if d < k && i in s[d := n - 1] {
      var a :| 0 <= a < |s| && s[d := n - 1][a] == i;
      assert s[a] == i;
    }
  }

  /** Uniformity: every item survives in exactly k / n of the possible runs. */
  lemma {:induction false} Uniform(k: nat, n: nat, i: nat)
    requires k <= n && i < n
    ensures n * |Keeping(k, n, i)| == k * |AllDraws(k, n)|
    decreases n
  {
    hide AllDraws, Keeping, Slots;
    if n == k {
      UniformAtFirst(k, i);
    } else {
      AllDrawsStep(k, n);
      if i == n - 1 {
        KeepingNewest(k, n);
      } else {
        KeepingOlder(k, n, i);
        Uniform(k, n - 1, i);
      }
      UniformStep(k, n, |AllDraws(k, n - 1)|, |Keeping(k, n, i)|, if i < n - 1 then |Keeping(k, n - 1, i)| else 0);
    }
  }

  lemma UniformAtFirst(k: nat, i: nat)
    requires i < k
    ensures k * |Keeping(k, k, i)| == k * |AllDraws(k, k)|
  {
    AllKept(k, k);
    assert Slots(k, k, [])[i] == i;
    assert Keeping(k, k, i) == {[]};
  }

  lemma UniformStep(k: nat, n: nat, all: nat, kept: nat, keptBefore: nat)
    requires kept == all * k || (kept == keptBefore * (n - 1) && (n - 1) * keptBefore == k * all)
    ensures n * kept == k * (all * n)
  {
    assert kept == all * k;
    Reorder(n, all, k);
  }

  lemma Reorder(a: nat, b: nat, c: nat)
    ensures a * (b * c) == c * (b * a)
    ensures a * (b * c) == a * (c * b)
    ensures a * (b * c) == (a * b) * c
    ensures (c * b) * a == (b * a) * c
  {
  }

  lemma {:induction false} AllKept(k: nat, n: nat)
    requires n <= k
    ensures forall j :: 0 <= j < n ==> Slots(k, n, [])[j] == j
    decreases n
  {
    if n > 0 {
      AllKept(k, n - 1);
    }
  }

  /** The same count in closed form: k / n of the n! / k! runs. */
  lemma SurvivingRuns(k: nat, n: nat, i: nat)
    requires k <= n && i < n
    ensures n * (|Keeping(k, n, i)| * Factorial(k)) == k * Factorial(n)
  {
    Uniform(k, n, i);
    AllDrawsCount(k, n);
    Rescale(n, |Keeping(k, n, i)|, k, |AllDraws(k, n)|, Factorial(k));
  }

  lemma Rescale(n: nat, kept: nat, k: nat, all: nat, f: nat)
    requires n * kept == k * all
    ensures n * (kept * f) == k * (all * f)
  {
    Reorder(n, kept, f);
    Reorder(k, all, f);
  }
}
