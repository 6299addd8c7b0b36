/** A sender that runs while everybody else rests: what its target loop achieves. */
module Alone {
  import opened Wire
  import opened Model
  import opened Runs

  /** What a read loop works on: its program point, the channels, its buffer's count and bytes,
      and the counters. */
  datatype View = View(r: ReadLoop, chans: seq<Chan>, refs: int, bytes: seq<byte>, stats: Stats)

  function ViewOf(s: State, t: nat, b: nat): View
    requires t < |s.readers| && b < |s.bufs|
  {
    View(s.readers[t], s.chans, s.bufs[b].refs, s.bufs[b].bytes, s.stats)
  }

  /** The rest of the state is as it was. */
  ghost predicate Elsewhere(s: State, s': State, t: nat, b: nat) {
    && (s'.registry, s'.keys, s'.cap, s'.pumps, s'.written, s'.worker)
       == (s.registry, s.keys, s.cap, s.pumps, s.written, s.worker)
    && |s'.bufs| == |s.bufs| && |s'.readers| == |s.readers|
    && (forall u :: 0 <= u < |s.readers| && u != t ==> s'.readers[u] == s.readers[u])
    && (forall x :: 0 <= x < |s.bufs| && x != b ==> s'.bufs[x] == s.bufs[x])
  }

  /** A step of read loop t, in terms of the view. */
  ghost predicate Does(s: State, t: nat, b: nat, v: View)
    requires InRange(s) && t < |s.readers| && b < |s.bufs|
  {
    ReadEnabled(s, t, Go) &&
    var s' := Next(s, ReadStep(t, Go));
    Elsewhere(s, s', t, b) && t < |s'.readers| && ViewOf(s', t, b) == v
  }

  /** Where a run of t alone has got to. */
  ghost predicate Got(s: State, t: nat, b: nat, s': State)
    requires InRange(s)
  {
    InRange(s') && t < |s.readers| && b < |s.bufs| && Reaches(s, ReadStep(t, Go), s') && Elsewhere(s, s', t, b)
  }

  lemma GotSelf(s: State, t: nat, b: nat)
    requires InRange(s) && t < |s.readers| && b < |s.bufs|
    ensures Got(s, t, b, s)
  {
    hide CanRun, Next;
    ReachesSelf(s, ReadStep(t, Go));
  }

  lemma Advance(s: State, t: nat, b: nat, s1: State, v: View) returns (s2: State)
    requires InRange(s) && Got(s, t, b, s1) && Does(s1, t, b, v)
    ensures Got(s, t, b, s2) && ViewOf(s2, t, b) == v
  {
    hide Reaches, ReadEnabled, ApplyRead, MoveOf;
    ReachesNext(s, ReadStep(t, Go), s1);
    s2 := Next(s1, ReadStep(t, Go));
  }

  ghost predicate At(s: State, t: nat, w: Work, at: At) {
    InRange(s) && t < |s.readers| && s.readers[t] == Handling(w, at) && w.buf < |s.bufs|
  }

  // --- The steps of the target loop ---

  function RLocked(chans: seq<Chan>, d: nat): (chans': seq<Chan>)
    requires d < |chans|
    ensures |chans'| == |chans|
  {
    chans[d := chans[d].(rlocks := chans[d].rlocks + 1)]
  }

  function RUnlocked(chans: seq<Chan>, d: nat): (chans': seq<Chan>)
    requires d < |chans|
    ensures |chans'| == |chans|
  {
    chans[d := chans[d].(rlocks := chans[d].rlocks - 1)]
  }

  /** SafePush takes the message exactly if the connector is open with room left. */
  predicate Accepts(ch: Chan, cap: nat) {
    !ch.isClosed && |ch.queue| < cap
  }

  function WithCopy(ch: Chan, b: nat): Chan {
    ch.(queue := ch.queue + [b], pushed := ch.pushed + [b])
  }

  function Pushed(chans: seq<Chan>, d: nat, b: nat, cap: nat): (chans': seq<Chan>)
    requires d < |chans|
    ensures |chans'| == |chans|
    ensures forall c :: 0 <= c < |chans| ==> chans'[c].writer == chans[c].writer
  {
    if Accepts(chans[d], cap) then chans[d := WithCopy(chans[d], b)] else chans
  }

  /** The counters after SafePush. */
  function PushStats(st: Stats, w: Work, ok: bool): Stats {
    if ok then st.(pushes := st.pushes + 1, extra := st.extra + if w.matched > 0 then 1 else 0)
    else st.(dropped := st.dropped + 1)
  }

  lemma LookupStep(s: State, t: nat, w: Work)
    requires At(s, t, w, AtLookup) && w.i < |w.targets|
    ensures var id := w.targets[w.i];
      Does(s, t, w.buf, ViewOf(s, t, w.buf).(r :=
        if id in s.registry then Handling(w, AtRetain(s.registry[id])) else Handling(w.(i := w.i + 1), AtLookup)))
  {
    hide LifeMove, FrameMove, PushMove;
  }

  lemma RetainStep(s: State, t: nat, w: Work, d: nat)
    requires At(s, t, w, AtRetain(d))
    ensures Does(s, t, w.buf, ViewOf(s, t, w.buf).(r := Handling(w, AtLock(d)), refs := s.bufs[w.buf].refs + 1))
  {
    hide LifeMove, FrameMove, PushMove;
  }

  lemma LockStep(s: State, t: nat, w: Work, d: nat)
    requires At(s, t, w, AtLock(d)) && d < |s.chans| && !s.chans[d].writer
    ensures Does(s, t, w.buf, ViewOf(s, t, w.buf).(r := Handling(w, AtTest(d)), chans := RLocked(s.chans, d)))
  {
    hide LifeMove, FrameMove, RouteMove;
  }

  lemma TestStep(s: State, t: nat, w: Work, d: nat)
    requires At(s, t, w, AtTest(d)) && d < |s.chans|
    ensures Does(s, t, w.buf,
      if s.chans[d].isClosed then
        ViewOf(s, t, w.buf).(r := Handling(w, AtUnlock(d, false)), stats := PushStats(s.stats, w, false))
      else ViewOf(s, t, w.buf).(r := Handling(w, AtSend(d))))
  {
    hide LifeMove, FrameMove, RouteMove;
  }

  lemma SendStep(s: State, t: nat, w: Work, d: nat)
    requires At(s, t, w, AtSend(d)) && d < |s.chans| && !s.chans[d].isClosed
    ensures var ok := Accepts(s.chans[d], s.cap);
      Does(s, t, w.buf, ViewOf(s, t, w.buf).(r := Handling(w, AtUnlock(d, ok)),
        chans := Pushed(s.chans, d, w.buf, s.cap), stats := PushStats(s.stats, w, ok)))
  {
    hide LifeMove, FrameMove, RouteMove;
  }

  /** Where the loop stands after its read-locked section. */
  function AfterPush(w: Work, ok: bool): ReadLoop {
    if ok then Handling(w.(i := w.i + 1, matched := w.matched + 1), AtLookup) else Handling(w, AtUndo)
  }

  lemma UnlockStep(s: State, t: nat, w: Work, d: nat, ok: bool)
    requires At(s, t, w, AtUnlock(d, ok)) && d < |s.chans| && (ok ==> w.i < |w.targets|)
    ensures Does(s, t, w.buf, ViewOf(s, t, w.buf).(r := AfterPush(w, ok), chans := RUnlocked(s.chans, d)))
  {
    hide LifeMove, FrameMove, RouteMove;
  }

  lemma UndoStep(s: State, t: nat, w: Work)
    requires At(s, t, w, AtUndo)
    ensures Does(s, t, w.buf, ViewOf(s, t, w.buf).(r := Handling(w, AtCount), refs := s.bufs[w.buf].refs - 1))
  {
    hide LifeMove, FrameMove, PushMove;
  }

  lemma CountStep(s: State, t: nat, w: Work)
    requires At(s, t, w, AtCount)
    ensures Does(s, t, w.buf, ViewOf(s, t, w.buf).(
      r := Handling(w.(i := w.i + 1), AtLookup), stats := s.stats.(noRecip := s.stats.noRecip + 1)))
  {
    hide LifeMove, FrameMove, PushMove;
  }

  lemma EndStep(s: State, t: nat, w: Work)
    requires At(s, t, w, AtLookup) && w.i == |w.targets|
    ensures Does(s, t, w.buf, ViewOf(s, t, w.buf).(r := Finishing(w.buf), stats := EndStats(s.stats, w)))
  {
    hide LifeMove, FrameMove, PushMove;
  }

  function EndStats(st: Stats, w: Work): Stats {
    if w.matched > 0 then st else st.(noRecip := st.noRecip + 1, zeroMatch := st.zeroMatch + 1)
  }

  // --- SafePush ---

  /** The outcome of the test and of the send, up to the unlock. */
  lemma SendAlone(s0: State, s: State, t: nat, w: Work, d: nat) returns (s': State)
    requires InRange(s0) && Got(s0, t, w.buf, s) && At(s, t, w, AtTest(d)) && d < |s.chans|
    ensures Got(s0, t, w.buf, s')
    ensures var ok := Accepts(s.chans[d], s.cap);
      ViewOf(s', t, w.buf) == ViewOf(s, t, w.buf).(r := Handling(w, AtUnlock(d, ok)),
        chans := Pushed(s.chans, d, w.buf, s.cap), stats := PushStats(s.stats, w, ok))
  {
    hide Reaches, Next, ReadEnabled;
    TestStep(s, t, w, d);
    var v := ViewOf(s, t, w.buf);
    if s.chans[d].isClosed {
      s' := Advance(s0, t, w.buf, s, v.(r := Handling(w, AtUnlock(d, false)), stats := PushStats(s.stats, w, false)));
    } else {
      var s1 := Advance(s0, t, w.buf, s, v.(r := Handling(w, AtSend(d))));
      assert s1.chans == s.chans && s1.cap == s.cap && s1.stats == s.stats;
      SendStep(s1, t, w, d);
      var ok := Accepts(s.chans[d], s.cap);
      s' := Advance(s0, t, w.buf, s1, v.(r := Handling(w, AtUnlock(d, ok)),
        chans := Pushed(s.chans, d, w.buf, s.cap), stats := PushStats(s.stats, w, ok)));
    }
  }

  /** Locking and unlocking around the push cancel out. */
  lemma LockedPush(chans: seq<Chan>, d: nat, b: nat, cap: nat)
    requires d < |chans|
    ensures RUnlocked(Pushed(RLocked(chans, d), d, b, cap), d) == Pushed(chans, d, b, cap)
    ensures Accepts(RLocked(chans, d)[d], cap) == Accepts(chans[d], cap)
  {
  }

  lemma LockAlone(s0: State, s: State, t: nat, w: Work, d: nat) returns (s': State)
    requires InRange(s0) && Got(s0, t, w.buf, s) && At(s, t, w, AtLock(d)) && d < |s.chans| && !s.chans[d].writer
    ensures Got(s0, t, w.buf, s')
    ensures ViewOf(s', t, w.buf) == ViewOf(s, t, w.buf).(r := Handling(w, AtTest(d)), chans := RLocked(s.chans, d))
  {
    hide Reaches, Next, ReadEnabled;
    LockStep(s, t, w, d);
    s' := Advance(s0, t, w.buf, s, ViewOf(s, t, w.buf).(r := Handling(w, AtTest(d)), chans := RLocked(s.chans, d)));
  }

  lemma UnlockAlone(s0: State, s: State, t: nat, w: Work, d: nat, ok: bool) returns (s': State)
    requires InRange(s0) && Got(s0, t, w.buf, s) && At(s, t, w, AtUnlock(d, ok)) && d < |s.chans| && w.i < |w.targets|
    ensures Got(s0, t, w.buf, s')
    ensures ViewOf(s', t, w.buf) == ViewOf(s, t, w.buf).(r := AfterPush(w, ok), chans := RUnlocked(s.chans, d))
  {
    hide Reaches, Next, ReadEnabled;
    UnlockStep(s, t, w, d, ok);
    s' := Advance(s0, t, w.buf, s, ViewOf(s, t, w.buf).(r := AfterPush(w, ok), chans := RUnlocked(s.chans, d)));
  }

  /** SafePush by t alone, from s0 on, whatever led there. */
  lemma PushAlone(s0: State, s: State, t: nat, w: Work, d: nat) returns (s': State)
    requires InRange(s0) && Got(s0, t, w.buf, s) && At(s, t, w, AtLock(d))
    requires d < |s.chans| && !s.chans[d].writer && w.i < |w.targets|
    ensures Got(s0, t, w.buf, s')
    ensures var ok := Accepts(s.chans[d], s.cap);
      ViewOf(s', t, w.buf) == ViewOf(s, t, w.buf).(r := AfterPush(w, ok),
        chans := Pushed(s.chans, d, w.buf, s.cap), stats := PushStats(s.stats, w, ok))
  {
    hide Reaches, Next, Accepts, Pushed, RLocked, RUnlocked;
    LockedPush(s.chans, d, w.buf, s.cap);
    s' := LockAlone(s0, s, t, w, d);
    s' := SendAlone(s0, s', t, w, d);
    s' := UnlockAlone(s0, s', t, w, d, Accepts(s.chans[d], s.cap));
  }

  // --- DeliverTo and the loop ---

  lemma RetainAlone(s0: State, s: State, t: nat, w: Work, d: nat) returns (s': State)
    requires InRange(s0) && Got(s0, t, w.buf, s) && At(s, t, w, AtRetain(d))
    ensures Got(s0, t, w.buf, s')
    ensures ViewOf(s', t, w.buf) == ViewOf(s, t, w.buf).(r := Handling(w, AtLock(d)), refs := s.bufs[w.buf].refs + 1)
  {
    hide Reaches, Next, ReadEnabled;
    RetainStep(s, t, w, d);
    s' := Advance(s0, t, w.buf, s, ViewOf(s, t, w.buf).(r := Handling(w, AtLock(d)), refs := s.bufs[w.buf].refs + 1));
  }

  /** The undoing Release and the failure count. */
  lemma UndoAlone(s0: State, s: State, t: nat, w: Work) returns (s': State)
    requires InRange(s0) && Got(s0, t, w.buf, s) && At(s, t, w, AtUndo)
    ensures Got(s0, t, w.buf, s')
    ensures ViewOf(s', t, w.buf) == ViewOf(s, t, w.buf).(r := Handling(w.(i := w.i + 1), AtLookup),
      refs := s.bufs[w.buf].refs - 1, stats := s.stats.(noRecip := s.stats.noRecip + 1))
  {
    hide Reaches, Next, ReadEnabled;
    UndoStep(s, t, w);
    var s1 := Advance(s0, t, w.buf, s, ViewOf(s, t, w.buf).(r := Handling(w, AtCount), refs := s.bufs[w.buf].refs - 1));
    CountStep(s1, t, w);
    s' := Advance(s0, t, w.buf, s1, ViewOf(s1, t, w.buf).(
      r := Handling(w.(i := w.i + 1), AtLookup), stats := s1.stats.(noRecip := s1.stats.noRecip + 1)));
  }

  predicate AtTarget(v: View, registry: map<Id, nat>) {
    && v.r.Handling? && v.r.at == AtLookup && v.r.w.i < |v.r.w.targets|
    && forall k :: k in registry ==> registry[k] < |v.chans|
  }

  /** One target served: DeliverTo if it is registered, and what HandleMessage counts. */
  function Serve(v: View, registry: map<Id, nat>, cap: nat): (v': View)
    requires AtTarget(v, registry)
    ensures v'.r.Handling? && v'.r.at == AtLookup && |v'.chans| == |v.chans| && v'.bytes == v.bytes
    ensures v'.r.w == v.r.w.(i := v.r.w.i + 1, matched := v'.r.w.matched)
    ensures forall c :: 0 <= c < |v.chans| ==> v'.chans[c].writer == v.chans[c].writer
  {
    var w := v.r.w;
    var id := w.targets[w.i];
    if id !in registry then v.(r := Handling(w.(i := w.i + 1), AtLookup)) else
    var d := registry[id];
    var st := PushStats(v.stats, w, Accepts(v.chans[d], cap));
    if Accepts(v.chans[d], cap) then
      v.(r := AfterPush(w, true), chans := Pushed(v.chans, d, w.buf, cap), refs := v.refs + 1, stats := st)
    else
      v.(r := Handling(w.(i := w.i + 1), AtLookup), stats := st.(noRecip := st.noRecip + 1))
  }

  /** DeliverTo, and what HandleMessage counts after it. */
  lemma DeliverAlone(s0: State, s: State, t: nat, w: Work, d: nat) returns (s': State)
    requires InRange(s0) && Got(s0, t, w.buf, s) && At(s, t, w, AtRetain(d))
    requires d < |s.chans| && !s.chans[d].writer && w.i < |w.targets|
    ensures Got(s0, t, w.buf, s')
    ensures var (v, ok) := (ViewOf(s, t, w.buf), Accepts(s.chans[d], s.cap));
      var st := PushStats(s.stats, w, ok);
      ViewOf(s', t, w.buf) == if ok
        then v.(r := AfterPush(w, true), chans := Pushed(s.chans, d, w.buf, s.cap), refs := v.refs + 1, stats := st)
        else v.(r := Handling(w.(i := w.i + 1), AtLookup), stats := st.(noRecip := st.noRecip + 1))
  {
    hide Reaches, Next, ReadEnabled, Accepts, InRange, PushStats;
    s' := RetainAlone(s0, s, t, w, d);
    s' := PushAlone(s0, s', t, w, d);
    if !Accepts(s.chans[d], s.cap) {
      s' := UndoAlone(s0, s', t, w);
    }
  }

  lemma LookupAlone(s0: State, s: State, t: nat, w: Work) returns (s': State)
    requires InRange(s0) && Got(s0, t, w.buf, s) && At(s, t, w, AtLookup) && w.i < |w.targets|
    ensures Got(s0, t, w.buf, s')
    ensures var id := w.targets[w.i];
      ViewOf(s', t, w.buf) == ViewOf(s, t, w.buf).(r :=
        if id in s.registry then Handling(w, AtRetain(s.registry[id])) else Handling(w.(i := w.i + 1), AtLookup))
  {
    hide Reaches, Next, ReadEnabled;
    var id := w.targets[w.i];
    LookupStep(s, t, w);
    s' := Advance(s0, t, w.buf, s, ViewOf(s, t, w.buf).(r :=
      if id in s.registry then Handling(w, AtRetain(s.registry[id])) else Handling(w.(i := w.i + 1), AtLookup)));
  }

  /** None of the targets from w.i on is about to be closed. */
  ghost predicate TargetsUnlocked(w: Work, registry: map<Id, nat>, chans: seq<Chan>) {
    forall j :: w.i <= j < |w.targets| && w.targets[j] in registry && registry[w.targets[j]] < |chans| ==>
      !chans[registry[w.targets[j]]].writer
  }

  lemma ServeAlone(s0: State, s: State, t: nat, w: Work) returns (s': State)
    requires InRange(s0) && Got(s0, t, w.buf, s) && At(s, t, w, AtLookup) && w.i < |w.targets|
    requires TargetsUnlocked(w, s.registry, s.chans)
    ensures Got(s0, t, w.buf, s')
    ensures AtTarget(ViewOf(s, t, w.buf), s.registry)
    ensures ViewOf(s', t, w.buf) == Serve(ViewOf(s, t, w.buf), s.registry, s.cap)
  {
    hide Reaches, Next, ReadEnabled, Pushed, Accepts;
    s' := LookupAlone(s0, s, t, w);
    if w.targets[w.i] in s.registry {
      s' := DeliverAlone(s0, s', t, w, s.registry[w.targets[w.i]]);
    }
  }

  /** The view when the target loop is through. */
  function LoopEnd(v: View, registry: map<Id, nat>, cap: nat): (v': View)
    requires v.r.Handling? && v.r.at == AtLookup && v.r.w.i <= |v.r.w.targets|
    requires forall k :: k in registry ==> registry[k] < |v.chans|
    ensures v'.r.Handling? && v'.r.at == AtLookup && |v'.chans| == |v.chans| && v'.bytes == v.bytes
    ensures v'.r.w == v.r.w.(i := |v.r.w.targets|, matched := v'.r.w.matched)
    decreases |v.r.w.targets| - v.r.w.i
  {
    if v.r.w.i == |v.r.w.targets| then v else LoopEnd(Serve(v, registry, cap), registry, cap)
  }

  /** The rest of the target loop. */
  lemma {:induction false} LoopAlone(s0: State, s: State, t: nat, w: Work) returns (s': State)
    requires InRange(s0) && Got(s0, t, w.buf, s) && At(s, t, w, AtLookup) && w.i <= |w.targets|
    requires TargetsUnlocked(w, s.registry, s.chans)
    ensures Got(s0, t, w.buf, s')
    ensures ViewOf(s', t, w.buf) == LoopEnd(ViewOf(s, t, w.buf), s.registry, s.cap)
    decreases |w.targets| - w.i
  {
    hide Reaches, Next, ReadEnabled, Serve;
    if w.i == |w.targets| {
      s' := s;
    } else {
      var s1 := ServeAlone(s0, s, t, w);
      var w1 := s1.readers[t].w;
      s' := LoopAlone(s0, s1, t, w1);
    }
  }

  /** With distinct targets, exactly the registered connectors that are open and have room get
      the buffer, each once, and nobody else's channel changes. */
  lemma {:induction false} LoopIsExact(v: View, registry: map<Id, nat>, keys: seq<Id>, cap: nat, c: nat)
    requires v.r.Handling? && v.r.at == AtLookup && v.r.w.i <= |v.r.w.targets| && Distinct(v.r.w.targets)
    requires forall k :: k in registry ==> registry[k] < |v.chans| && registry[k] < |keys| && keys[registry[k]] == k
    requires c < |v.chans| == |keys|
    ensures LoopEnd(v, registry, cap).chans[c] == (
      var (k, w) := (keys[c], v.r.w);
      if k in w.targets[w.i..] && k in registry && registry[k] == c && Accepts(v.chans[c], cap)
      then WithCopy(v.chans[c], w.buf) else v.chans[c])
    decreases |v.r.w.targets| - v.r.w.i
  {
    var (targets, i) := (v.r.w.targets, v.r.w.i);
    if i < |targets| {
      assert targets[i..] == [targets[i]] + targets[i + 1..];
      assert targets[i] !in targets[i + 1..];
      LoopIsExact(Serve(v, registry, cap), registry, keys, cap, c);
    }
  }

  /** The target loop and the count after it. */
  lemma HandlingAlone(s0: State, s: State, t: nat, w: Work) returns (s': State)
    requires InRange(s0) && Got(s0, t, w.buf, s) && At(s, t, w, AtLookup) && w.i <= |w.targets|
    requires TargetsUnlocked(w, s.registry, s.chans)
    ensures Got(s0, t, w.buf, s')
    ensures var end := LoopEnd(ViewOf(s, t, w.buf), s.registry, s.cap);
      ViewOf(s', t, w.buf) == end.(r := Finishing(w.buf), stats := EndStats(end.stats, end.r.w))
  {
    hide Reaches, Next, ReadEnabled;
    var s1 := LoopAlone(s0, s, t, w);
    var w1 := s1.readers[t].w;
    EndStep(s1, t, w1);
    s' := Advance(s0, t, w.buf, s1, ViewOf(s1, t, w.buf).(r := Finishing(w.buf), stats := EndStats(s1.stats, w1)));
  }
}
