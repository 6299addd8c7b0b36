/** What an undisturbed target loop adds up to: copies taken, pushes refused. */
module Outcome {
  import opened Wire
  import opened Model
  import opened Alone

  /** id is registered, and its connector takes the message or, with ok false, does not. */
  predicate Answers(id: Id, ok: bool, registry: map<Id, nat>, chans: seq<Chan>, cap: nat) {
    && id in registry && registry[id] < |chans|
    && ok == (!chans[registry[id]].isClosed && |chans[registry[id]].queue| < cap)
  }

  /** The identities among ids that answer so. */
  ghost function Answering(ids: seq<Id>, ok: bool, registry: map<Id, nat>, chans: seq<Chan>, cap: nat): set<Id> {
    set id | id in ids && Answers(id, ok, registry, chans, cap)
  }

  lemma AnswersKept(ids: seq<Id>, ok: bool, registry: map<Id, nat>, chans: seq<Chan>, chans': seq<Chan>, cap: nat)
    requires |chans'| == |chans|
    requires forall k :: (k in ids && k in registry && registry[k] < |chans| ==>
      chans'[registry[k]] == chans[registry[k]])
    ensures Answering(ids, ok, registry, chans', cap) == Answering(ids, ok, registry, chans, cap)
  {
  }

  lemma AnswersHead(id: Id, rest: seq<Id>, ok: bool, registry: map<Id, nat>, chans: seq<Chan>, cap: nat)
    requires id !in rest
    ensures |Answering([id] + rest, ok, registry, chans, cap)| == |Answering(rest, ok, registry, chans, cap)|
      + if Answers(id, ok, registry, chans, cap) then 1 else 0
  {
    hide Answers;
    var now, later := Answering([id] + rest, ok, registry, chans, cap), Answering(rest, ok, registry, chans, cap);
    if Answers(id, ok, registry, chans, cap) {
      assert now == later + {id};
    } else {
      assert now == later;
    }
  }

  lemma NotAgain(targets: seq<Id>, i: nat)
    requires i < |targets| && Distinct(targets)
    ensures targets[i..] == [targets[i]] + targets[i + 1..] && targets[i] !in targets[i + 1..]
  {
  }

  predicate OneKeyEach(registry: map<Id, nat>) {
    forall k, l :: k in registry && l in registry && k != l ==> registry[k] != registry[l]
  }

  /** Serving one of distinct targets does not change how the others answer. */
  lemma AnswersNext(targets: seq<Id>, i: nat, ok: bool, registry: map<Id, nat>, chans: seq<Chan>, chans': seq<Chan>,
      cap: nat)
    requires i < |targets| && Distinct(targets) && OneKeyEach(registry) && |chans'| == |chans|
    requires forall c :: (0 <= c < |chans| && !(targets[i] in registry && registry[targets[i]] == c) ==>
      chans'[c] == chans[c])
    ensures |Answering(targets[i..], ok, registry, chans, cap)|
      == |Answering(targets[i + 1..], ok, registry, chans', cap)|
        + if Answers(targets[i], ok, registry, chans, cap) then 1 else 0
  {
    hide Answers, Answering, Distinct;
    NotAgain(targets, i);
    AnswersKept(targets[i + 1..], ok, registry, chans, chans', cap);
    AnswersHead(targets[i], targets[i + 1..], ok, registry, chans, cap);
  }

  /** The loop went from v to v', counting taken pushes and refused ones. */
  ghost predicate Counted(v: View, v': View, taken: nat, refused: nat)
    requires v.r.Handling? && v'.r.Handling?
  {
    && v'.r.w.matched == v.r.w.matched + taken && v'.refs == v.refs + taken
    && v'.stats == v.stats.(pushes := v.stats.pushes + taken, extra := v'.stats.extra,
         dropped := v.stats.dropped + refused, noRecip := v.stats.noRecip + refused)
  }

  lemma CountedOn(v: View, v1: View, v2: View, taken: nat, refused: nat, taken': nat, refused': nat)
    requires v.r.Handling? && v1.r.Handling? && v2.r.Handling?
    requires Counted(v, v1, taken, refused) && Counted(v1, v2, taken', refused')
    ensures Counted(v, v2, taken + taken', refused + refused')
  {
  }

  lemma ServeCounts(v: View, registry: map<Id, nat>, cap: nat)
    requires AtTarget(v, registry)
    ensures var (v', id) := (Serve(v, registry, cap), v.r.w.targets[v.r.w.i]);
      && Counted(v, v', if Answers(id, true, registry, v.chans, cap) then 1 else 0,
           if Answers(id, false, registry, v.chans, cap) then 1 else 0)
      && forall c :: (0 <= c < |v.chans| && !(id in registry && registry[id] == c) ==> v'.chans[c] == v.chans[c])
  {
  }

  /** Counted from v on, the targets left at v answering. */
  ghost predicate CountedFrom(v: View, v': View, registry: map<Id, nat>, cap: nat)
    requires v.r.Handling? && v'.r.Handling? && v.r.w.i <= |v.r.w.targets|
  {
    var left := v.r.w.targets[v.r.w.i..];
    Counted(v, v', |Answering(left, true, registry, v.chans, cap)|, |Answering(left, false, registry, v.chans, cap)|)
  }

  lemma ServedFirst(v: View, end: View, registry: map<Id, nat>, cap: nat)
    requires AtTarget(v, registry) && Distinct(v.r.w.targets) && OneKeyEach(registry) && end.r.Handling?
    requires CountedFrom(Serve(v, registry, cap), end, registry, cap)
    ensures CountedFrom(v, end, registry, cap)
  {
    hide Answers, Serve, Distinct, OneKeyEach, Answering, Counted;
    var w, v1 := v.r.w, Serve(v, registry, cap);
    ServeCounts(v, registry, cap);
    AnswersNext(w.targets, w.i, true, registry, v.chans, v1.chans, cap);
    AnswersNext(w.targets, w.i, false, registry, v.chans, v1.chans, cap);
    var left := w.targets[w.i + 1..];
    CountedOn(v, v1, end,
      if Answers(w.targets[w.i], true, registry, v.chans, cap) then 1 else 0,
      if Answers(w.targets[w.i], false, registry, v.chans, cap) then 1 else 0,
      |Answering(left, true, registry, v1.chans, cap)|, |Answering(left, false, registry, v1.chans, cap)|);
  }

  /** The loop takes one reference and counts one push for every target that takes the message, and
      counts one failure for every registered target that does not. */
  lemma {:induction false} LoopCounts(v: View, registry: map<Id, nat>, cap: nat)
    requires v.r.Handling? && v.r.at == AtLookup && v.r.w.i <= |v.r.w.targets| && Distinct(v.r.w.targets)
    requires OneKeyEach(registry) && forall k :: k in registry ==> registry[k] < |v.chans|
    ensures CountedFrom(v, LoopEnd(v, registry, cap), registry, cap)
    decreases |v.r.w.targets| - v.r.w.i
  {
    hide Serve, Distinct, OneKeyEach, CountedFrom;
    if v.r.w.i == |v.r.w.targets| {
      NothingCounted(v, registry, cap);
    } else {
      var v1 := Serve(v, registry, cap);
      LoopCounts(v1, registry, cap);
      ServedFirst(v, LoopEnd(v1, registry, cap), registry, cap);
    }
  }

  lemma NothingCounted(v: View, registry: map<Id, nat>, cap: nat)
    requires v.r.Handling? && v.r.w.i == |v.r.w.targets|
    ensures CountedFrom(v, v, registry, cap)
  {
    NobodyAnswers(v.r.w.targets[v.r.w.i..], registry, v.chans, cap);
  }

  lemma NobodyAnswers(ids: seq<Id>, registry: map<Id, nat>, chans: seq<Chan>, cap: nat)
    requires ids == []
    ensures Answering(ids, true, registry, chans, cap) == {} == Answering(ids, false, registry, chans, cap)
  {
  }
}
