/** Particular runs, showing what the public counters do not say. */
module Witnesses {
  import opened Wire
  import opened Message
  import opened Targets
  import opened Codec
  import opened Model
  import opened Runs
  import opened Alone
  import opened Arrival
  import opened Accounting
  import opened Reception
  import Departure
  import Lifecycle

  // --- Single steps ---

  lemma AcceptStep(s: State, key: Id) returns (s': State)
    requires Reachable(s) && InRange(s)
    ensures Reachable(s') && InRange(s') && s' == ApplyAccept(s, key)
  {
    hide Reachable, ApplyRead, ApplyPump, MoveOf, PumpMoveOf;
    ReachableNext(s, Accept(key));
    s' := Next(s, Accept(key));
  }

  /** OnConnect's Swap. */
  lemma SwapStep(s: State, t: nat) returns (s': State)
    requires Reachable(s) && InRange(s) && t < |s.readers| && s.readers[t].Fresh?
    ensures Reachable(s') && InRange(s')
    ensures var key := s.keys[t];
      s' == s.(readers := s.readers[t := if key in s.registry then Starting else AddPending],
        registry := s.registry[key := t], lastSwap := s.lastSwap[key := t])
  {
    hide Reachable, Next, ReadEnabled;
    Lifecycle.SwapStep(s, t);
    ReachableNext(s, ReadStep(t, Go));
    s' := Next(s, ReadStep(t, Go));
  }

  lemma AddStep(s: State, t: nat) returns (s': State)
    requires Reachable(s) && InRange(s) && t < |s.readers| && s.readers[t].AddPending?
    ensures Reachable(s') && InRange(s')
    ensures s' == s.(readers := s.readers[t := Starting], stats := s.stats.(connCount := s.stats.connCount + 1))
  {
    hide Reachable, Next, ReadEnabled;
    Lifecycle.AddStep(s, t);
    ReachableNext(s, ReadStep(t, Go));
    s' := Next(s, ReadStep(t, Go));
  }

  /** The read loop and its write pump start. */
  lemma StartStep(s: State, t: nat) returns (s': State)
    requires Reachable(s) && InRange(s) && t < |s.readers| && s.readers[t].Starting?
    ensures Reachable(s') && InRange(s')
    ensures s' == s.(readers := s.readers[t := Idle], pumps := s.pumps[t := Recv])
  {
    hide Reachable, Next, ReadEnabled;
    Lifecycle.StartStep(s, t);
    ReachableNext(s, ReadStep(t, Go));
    s' := Next(s, ReadStep(t, Go));
  }

  /** conn.Reader fails. */
  lemma FailStep(s: State, t: nat) returns (s': State)
    requires Reachable(s) && InRange(s) && t < |s.readers| && s.readers[t].Idle?
    ensures Reachable(s') && InRange(s') && s' == s.(readers := s.readers[t := Disconnecting])
  {
    hide Reachable, Next, ReadEnabled;
    ReaderFails(s, t);
    ReachableNext(s, ReadStep(t, NetError));
    s' := Next(s, ReadStep(t, NetError));
  }

  /** OnDisconnect's CompareAndDelete by the connection that is registered. */
  lemma DeleteStep(s: State, t: nat) returns (s': State)
    requires Reachable(s) && InRange(s) && t < |s.readers| && s.readers[t].Disconnecting?
    requires s.keys[t] in s.registry && s.registry[s.keys[t]] == t
    ensures Reachable(s') && InRange(s')
    ensures s' == s.(readers := s.readers[t := SubPending], registry := s.registry - {s.keys[t]}, gone := s.gone + {t})
  {
    hide Reachable, Next, ReadEnabled;
    Lifecycle.DeleteStep(s, t);
    ReachableNext(s, ReadStep(t, Go));
    s' := Next(s, ReadStep(t, Go));
  }

  /** Its decrement of the counter. */
  lemma SubStep(s: State, t: nat) returns (s': State)
    requires Reachable(s) && InRange(s) && t < |s.readers| && s.readers[t].SubPending?
    ensures Reachable(s') && InRange(s')
    ensures s' == s.(readers := s.readers[t := Closing(Locking)],
      stats := s.stats.(connCount := s.stats.connCount - 1))
  {
    hide Reachable, Next, ReadEnabled;
    Lifecycle.SubStep(s, t);
    ReachableNext(s, ReadStep(t, Go));
    s' := Next(s, ReadStep(t, Go));
  }

  // --- Count ---

  /** Two connections have been accepted. */
  lemma TwoFresh(size: int, a: Id, b: Id) returns (s: State)
    ensures Reachable(s) && InRange(s)
    ensures s == ApplyAccept(ApplyAccept(Init(size), a), b)
  {
    hide Reachable;
    InitReachable(size);
    s := AcceptStep(Init(size), a);
    s := AcceptStep(s, b);
  }

  /** Two connections under one key have swapped themselves in; the first one's increment is
      outstanding and the second one, which replaced it, owes none. */
  lemma TwoUnderOneKey(key: Id) returns (s: State)
    ensures Reachable(s) && InRange(s) && s.keys == [key, key] && s.readers == [AddPending, Starting]
    ensures s.registry == map[key := 1] && s.stats.connCount == 0
  {
    hide Reachable;
    s := TwoFresh(1, key, key);
    s := SwapStep(s, 0);
    s := SwapStep(s, 1);
  }

  /** Count can be negative: the second of two connections under one key leaves again before the
      first one's increment. */
  lemma CountCanBeNegative(key: Id) returns (s: State)
    ensures Reachable(s) && s.stats.connCount == -1 && s.registry == map[]
  {
    hide Reachable;
    s := TwoUnderOneKey(key);
    s := StartStep(s, 1);
    s := FailStep(s, 1);
    s := DeleteStep(s, 1);
    s := SubStep(s, 1);
  }

  // --- A sender and a receiver ---

  /** a's connection is idle and b's pump waits; nothing is going on but what is in b's queue. */
  ghost predicate Ready(s: State, a: Id, b: Id) {
    && Reachable(s) && InRange(s) && a != b
    && s.keys == [a, b] && s.registry == map[a := 0, b := 1]
    && s.readers == [Idle, Idle] && s.pumps == [Recv, Recv] && s.worker == Ranging && |s.chans| == 2
    && !s.chans[1].isClosed && !s.chans[1].writer
  }

  /** The counters of a server that has taken two connections and done nothing else. */
  function Quiet(): Stats {
    Stats(2, 0, 0, 0, 0, 0, 0, 0, 0, 0, 0, 0, 0)
  }

  lemma Registered(s0: State, a: Id, b: Id) returns (s: State)
    requires Reachable(s0) && InRange(s0) && a != b && |s0.keys| == 2 && s0.keys == [a, b] && s0.registry == map[]
    requires s0.readers == [Fresh, Fresh]
    ensures Reachable(s) && InRange(s)
    ensures s == s0.(readers := [Starting, Starting], registry := map[a := 0, b := 1],
      lastSwap := s.lastSwap, stats := s0.stats.(connCount := s0.stats.connCount + 2))
  {
    hide Reachable;
    s := SwapStep(s0, 0);
    s := AddStep(s, 0);
    s := SwapStep(s, 1);
    s := AddStep(s, 1);
    assert s.readers == [Starting, Starting];
  }

  lemma TwoReady(size: int, a: Id, b: Id) returns (s: State)
    requires a != b
    ensures Ready(s, a, b) && s.cap == EffectiveCap(size) && s.chans[1].queue == [] && s.stats == Quiet()
  {
    hide Reachable;
    s := TwoFresh(size, a, b);
    s := Registered(s, a, b);
    s := StartStep(s, 0);
    s := StartStep(s, 1);
    assert s.readers == [Idle, Idle] && s.pumps == [Recv, Recv];
  }

  /** What one message of a to b does to the counters. */
  function Sent(st: Stats, ok: bool): Stats {
    if ok then st.(processed := st.processed + 1, pushes := st.pushes + 1)
    else st.(processed := st.processed + 1, noRecip := st.noRecip + 2,
      dropped := st.dropped + 1, zeroMatch := st.zeroMatch + 1)
  }

  lemma OneRecipient(a: Id, b: Id)
    requires a != b
    ensures IsFrame(Frame([b], []), [b], [], MAX_MESSAGE_SIZE)
    ensures Recipients(a + Frame([b], []), a) == [b]
  {
    NamedOfFrame(a, [b], []);
    assert [b][..0] == [] && Without([], a) == [];
  }

  /** HandleMessage for the one recipient b. */
  lemma OneView(v: View, a: Id, b: Id, buf: nat, registry: map<Id, nat>, cap: nat)
    requires a != b && |v.chans| == 2 && registry == map[a := 0, b := 1]
    ensures var ok := Accepts(v.chans[1], cap);
      var v' := HandledView(v, a, a + Frame([b], []), buf, registry, cap);
      && v'.r == Finishing(buf) && v'.chans == Pushed(v.chans, 1, buf, cap)
      && v'.stats == Sent(v.stats, ok)
  {
    hide Recipients, Zeroed, Frame, Accepts;
    OneRecipient(a, b);
    var start := v.(r := Handling(Work(buf, [b], 0, 0), AtLookup), bytes := Zeroed(a + Frame([b], [])),
      stats := v.stats.(processed := v.stats.processed + 1));
    assert AtTarget(start, registry);
    var served := Serve(start, registry, cap);
    assert served.r.w.i == 1;
    assert LoopEnd(start, registry, cap) == LoopEnd(served, registry, cap) == served;
  }

  /** One message of a to b, undisturbed. */
  lemma SendOne(s: State, a: Id, b: Id) returns (s': State)
    requires Ready(s, a, b)
    ensures Ready(s', a, b) && s'.cap == s.cap
    ensures s'.chans[1] == Pushed(s.chans, 1, |s.bufs|, s.cap)[1]
    ensures s'.stats == Sent(s.stats, Accepts(s.chans[1], s.cap))
  {
    hide Reachable, Reaches, Next, ReadEnabled, InRange, HandledView, Recipients, Accepts, Sent, Frame;
    OneRecipient(a, b);
    var ev, s1, s2 := FrameHandled(s, 0, Frame([b], []), [b], [], []);
    ReachableNext(s, ReadStep(0, ev));
    var v := View(Filling(|s.bufs|, Eof), s.chans, 1, s1.bufs[|s.bufs|].bytes, s.stats);
    OneView(v, a, b, |s.bufs|, s.registry, s.cap);
    FinishStep(s2, 0, |s.bufs|);
    s' := Advance(s1, 0, |s.bufs|, s2, ViewOf(s2, 0, |s.bufs|).(r := Idle, refs := s2.bufs[|s.bufs|].refs - 1));
    ReachesReachable(s1, ReadStep(0, Go), s');
    assert s'.readers == [Idle, Idle];
  }

  /** b's pump, undisturbed. */
  lemma PumpAll(s: State, a: Id, b: Id) returns (s': State)
    requires Ready(s, a, b)
    ensures Ready(s', a, b) && s'.cap == s.cap && s'.chans[1].queue == []
    ensures s'.stats == Departure.ReportedTimes(s.stats, |s.chans[1].queue|)
  {
    hide Reachable, Reaches, Next, PumpEnabled;
    var ds;
    s', ds := Departure.QueueGetsOut(s, 1);
    ReachesReachable(s, PumpStep(1, true), s');
    assert s'.pumps == [Recv, Recv];
  }

  // --- delivered, noRecip and processed ---

  /** With room for one message in b's queue, two messages are sent before b's pump gets to run. When
      all is quiet again, one has been delivered and the other dropped, but noRecip is two: at rest
      delivered + noRecip exceeds processed. On the way, with the first message in the
      queue and nobody inside HandleMessage, the two added up to less than processed, and delivered
      was less than the number of pushes. */
  lemma CountersDisagree(a: Id, b: Id) returns (during: State, after: State)
    requires a != b
    ensures Reachable(during) && NobodyHandles(during)
    ensures during.stats.delivered == 0 && during.stats.pushes == 1
    ensures during.stats.delivered + during.stats.noRecip == 0 && during.stats.processed == 1
    ensures Reachable(after) && NobodyHandles(after)
    ensures after.stats.processed == 2 && after.stats.delivered == 1 && after.stats.noRecip == 2
    ensures Ready(after, a, b) && after.chans[1].queue == []
  {
    hide Reachable, InRange;
    var s := TwoReady(1, a, b);
    during := SendOne(s, a, b);
    var full := SendOne(during, a, b);
    after := PumpAll(full, a, b);
    assert full.chans[1].queue == during.chans[1].queue && |full.chans[1].queue| == 1;
    assert after.stats == Departure.Reported(full.stats);
  }

  // --- delivered and latencyCount ---

  /** The latency counters after n deliveries during which the worker rests. */
  ghost predicate Backlog(st: Stats, n: nat) {
    && st.delivered == n && st.latencyCount == 0
    && st.latencyQueued == (if n < LATENCY_CAP then n else LATENCY_CAP)
    && st.latencyDropped == n - st.latencyQueued
  }

  /** One message sent and delivered while the worker rests. */
  lemma Round(s: State, a: Id, b: Id, n: nat) returns (s': State)
    requires Ready(s, a, b) && s.cap > 0 && s.chans[1].queue == [] && Backlog(s.stats, n)
    ensures Ready(s', a, b) && s'.cap == s.cap && s'.chans[1].queue == [] && Backlog(s'.stats, n + 1)
  {
    hide Reachable, InRange;
    var s1 := SendOne(s, a, b);
    s' := PumpAll(s1, a, b);
    assert |s1.chans[1].queue| == 1;
    assert s'.stats == Departure.Reported(s1.stats);
  }

  lemma {:induction false} Rounds(a: Id, b: Id, n: nat) returns (s: State)
    requires a != b
    ensures Ready(s, a, b) && s.cap > 0 && s.chans[1].queue == [] && Backlog(s.stats, n)
  {
    hide Ready;
    if n == 0 {
      s := TwoReady(1, a, b);
    } else {
      s := Rounds(a, b, n - 1);
      s := Round(s, a, b, n - 1);
    }
  }

  /** The worker counts one measurement. */
  lemma CountOne(s: State) returns (s': State)
    requires Reachable(s) && InRange(s) && s.worker == Ranging && s.stats.latencyQueued > 0
    ensures Reachable(s') && InRange(s')
    ensures s' == s.(stats := s.stats.(
      latencyCount := s.stats.latencyCount + 1, latencyQueued := s.stats.latencyQueued - 1))
  {
    hide Reachable, ApplyRead, ApplyPump, MoveOf, PumpMoveOf;
    ReachableNext(s, WorkerStep);
    var s1 := Next(s, WorkerStep);
    ReachableNext(s1, WorkerStep);
    s' := Next(s1, WorkerStep);
  }

  /** The worker empties its channel. */
  lemma {:induction false} CountAll(s: State) returns (s': State)
    requires Reachable(s) && InRange(s) && s.worker == Ranging
    ensures Reachable(s') && InRange(s')
    ensures s' == s.(stats := s.stats.(
      latencyCount := s.stats.latencyCount + s.stats.latencyQueued, latencyQueued := 0))
    decreases s.stats.latencyQueued
  {
    hide Reachable, InRange;
    if s.stats.latencyQueued == 0 {
      s' := s;
    } else {
      s' := CountOne(s);
      s' := CountAll(s');
    }
  }

  /** Measurements can be lost: after one delivery more than the latency channel holds, made
      while the worker rests, and with the worker's channel emptied again and everybody at rest,
      latencyCount is one short of delivered. */
  lemma LatencyCanBeLost(a: Id, b: Id) returns (s: State)
    requires a != b
    ensures Ready(s, a, b) && s.chans[1].queue == [] && s.stats.latencyQueued == 0
    ensures s.stats.delivered == LATENCY_CAP + 1 && s.stats.latencyCount == LATENCY_CAP && s.stats.latencyDropped == 1
  {
    hide Reachable, InRange;
    s := Rounds(a, b, LATENCY_CAP + 1);
    s := CountAll(s);
  }
}
