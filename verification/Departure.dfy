/** A write pump that runs while everybody else rests: its queue goes out whole and in order, and
    after a failed write it closes, drains and stops. */
module Departure {
  import opened Wire
  import opened Model
  import opened Runs

  /** What a pump works on: its program point, its channel, what it has written, the counters. */
  datatype View = View(p: Pump, chan: Chan, written: seq<Delivery>, stats: Stats)

  function ViewOf(s: State, c: nat): View
    requires c < |s.pumps| && c < |s.chans| && c < |s.written|
  {
    View(s.pumps[c], s.chans[c], s.written[c], s.stats)
  }

  /** The rest of the state is as it was; buffers lose references, but keep their bytes. */
  ghost predicate Elsewhere(s: State, s': State, c: nat) {
    && (s'.registry, s'.keys, s'.cap, s'.readers, s'.worker) == (s.registry, s.keys, s.cap, s.readers, s.worker)
    && |s'.bufs| == |s.bufs| && |s'.pumps| == |s.pumps| && |s'.chans| == |s.chans| && |s'.written| == |s.written|
    && (forall b :: 0 <= b < |s.bufs| ==> s'.bufs[b].bytes == s.bufs[b].bytes)
    && (forall d :: 0 <= d < |s.chans| && d != c ==> s'.chans[d] == s.chans[d])
    && (forall d :: 0 <= d < |s.pumps| && d != c ==> s'.pumps[d] == s.pumps[d])
    && (forall d :: 0 <= d < |s.written| && d != c ==> s'.written[d] == s.written[d])
  }

  ghost predicate Does(s: State, c: nat, v: View)
    requires InRange(s) && c < |s.pumps|
  {
    PumpEnabled(s, c) &&
    var s' := Next(s, PumpStep(c, true));
    Elsewhere(s, s', c) && ViewOf(s', c) == v
  }

  /** Where the pump of c has got to alone, with every write succeeding. */
  ghost predicate Got(s: State, c: nat, s': State)
    requires InRange(s)
  {
    InRange(s') && c < |s'.pumps| && Reaches(s, PumpStep(c, true), s') && Elsewhere(s, s', c)
  }

  lemma GotSelf(s: State, c: nat)
    requires InRange(s) && c < |s.pumps|
    ensures Got(s, c, s)
  {
    hide CanRun, Next;
    ReachesSelf(s, PumpStep(c, true));
  }

  lemma Advance(s: State, c: nat, s1: State, v: View) returns (s2: State)
    requires InRange(s) && Got(s, c, s1) && Does(s1, c, v)
    ensures Got(s, c, s2) && ViewOf(s2, c) == v
  {
    hide Reaches, PumpEnabled, ApplyPump, PumpMoveOf;
    ReachesNext(s, PumpStep(c, true), s1);
    s2 := Next(s1, PumpStep(c, true));
  }

  /** The channel without its first message. */
  function Popped(ch: Chan): Chan
    requires ch.queue != []
  {
    ch.(queue := ch.queue[1..])
  }

  lemma TakeStep(s: State, c: nat)
    requires InRange(s) && c < |s.pumps| && s.pumps[c] == Recv && s.chans[c].queue != []
    ensures Does(s, c, ViewOf(s, c).(p := Writing(s.chans[c].queue[0]), chan := Popped(s.chans[c])))
  {
  }

  /** The write: what goes out are the buffer's bytes. */
  lemma WriteStep(s: State, c: nat, b: nat) returns (d: Delivery)
    requires InRange(s) && c < |s.pumps| && s.pumps[c] == Writing(b) && b < |s.bufs|
    ensures d.buf == b && d.bytes == s.bufs[b].bytes
    ensures Does(s, c, ViewOf(s, c).(p := Freeing(b, true), written := s.written[c] + [d]))
  {
    d := Delivery(b, |s.chans[c].pushed| - |s.chans[c].queue| - 1, s.bufs[b].bytes);
  }

  lemma FreeStep(s: State, c: nat, b: nat)
    requires InRange(s) && c < |s.pumps| && s.pumps[c] == Freeing(b, true) && b < |s.bufs|
    ensures Does(s, c, ViewOf(s, c).(p := Reporting(true)))
  {
  }

  /** The counters after RecordLatency. */
  function Recorded(st: Stats): Stats {
    if st.latencyQueued < LATENCY_CAP then st.(latencyQueued := st.latencyQueued + 1)
    else st.(latencyDropped := st.latencyDropped + 1)
  }

  /** The counters after IncrementDeliverySuccess and RecordLatency. */
  function Reported(st: Stats): Stats {
    Recorded(st.(delivered := st.delivered + 1))
  }

  lemma ReportStep(s: State, c: nat)
    requires InRange(s) && c < |s.pumps| && s.pumps[c] == Reporting(true)
    ensures Does(s, c, ViewOf(s, c).(p := Recording, stats := s.stats.(delivered := s.stats.delivered + 1)))
  {
  }

  lemma RecordStep(s: State, c: nat)
    requires InRange(s) && c < |s.pumps| && s.pumps[c] == Recording
    ensures Does(s, c, ViewOf(s, c).(p := Recv, stats := Recorded(s.stats)))
  {
  }

  /** Receive and write. */
  lemma SendAlone(s0: State, s: State, c: nat) returns (s': State, d: Delivery)
    requires InRange(s0) && Got(s0, c, s) && s.pumps[c] == Recv && s.chans[c].queue != []
    ensures Got(s0, c, s')
    ensures var b := s.chans[c].queue[0];
      && b < |s.bufs| && d.buf == b && d.bytes == s.bufs[b].bytes
      && ViewOf(s', c) == View(Freeing(b, true), Popped(s.chans[c]), s.written[c] + [d], s.stats)
  {
    hide Reaches, Next, PumpEnabled;
    var b := s.chans[c].queue[0];
    assert QueueInRange(s.chans[c].queue, |s.bufs|);
    TakeStep(s, c);
    var s1 := Advance(s0, c, s, ViewOf(s, c).(p := Writing(b), chan := Popped(s.chans[c])));
    d := WriteStep(s1, c, b);
    s' := Advance(s0, c, s1, ViewOf(s1, c).(p := Freeing(b, true), written := s1.written[c] + [d]));
  }

  /** Release and report. */
  lemma SettleAlone(s0: State, s: State, c: nat, b: nat) returns (s': State)
    requires InRange(s0) && Got(s0, c, s) && s.pumps[c] == Freeing(b, true) && b < |s.bufs|
    ensures Got(s0, c, s')
    ensures ViewOf(s', c) == ViewOf(s, c).(p := Recv, stats := Reported(s.stats))
  {
    hide Reaches, Next, PumpEnabled, Recorded;
    FreeStep(s, c, b);
    var s1 := Advance(s0, c, s, ViewOf(s, c).(p := Reporting(true)));
    ReportStep(s1, c);
    var s2 := Advance(s0, c, s1, ViewOf(s1, c).(
      p := Recording, stats := s1.stats.(delivered := s1.stats.delivered + 1)));
    RecordStep(s2, c);
    s' := Advance(s0, c, s2, ViewOf(s2, c).(p := Recv, stats := Recorded(s2.stats)));
  }

  /** The deliveries ds are the buffers of q, in order, with their bytes. */
  predicate AreWrites(ds: seq<Delivery>, q: seq<nat>, s: State) {
    && |ds| == |q|
    && forall j :: 0 <= j < |q| ==> q[j] < |s.bufs| && ds[j].buf == q[j] && ds[j].bytes == s.bufs[q[j]].bytes
  }

  lemma AreWritesNext(d: Delivery, rest: seq<Delivery>, q: seq<nat>, s: State)
    requires q != [] && AreWrites([d], [q[0]], s) && AreWrites(rest, q[1..], s)
    ensures AreWrites([d] + rest, q, s)
  {
    assert [d][0].buf == [q[0]][0] && [d][0].bytes == s.bufs[[q[0]][0]].bytes;
    assert forall j :: 0 < j < |q| ==> q[j] == q[1..][j - 1];
  }

  /** One message. */
  lemma MessageAlone(s0: State, s: State, c: nat) returns (s': State, d: Delivery)
    requires InRange(s0) && Got(s0, c, s) && s.pumps[c] == Recv && s.chans[c].queue != []
    ensures Got(s0, c, s') && AreWrites([d], [s.chans[c].queue[0]], s0)
    ensures ViewOf(s', c) == View(Recv, Popped(s.chans[c]), s.written[c] + [d], Reported(s.stats))
  {
    hide Reaches, Next, PumpEnabled, Reported;
    var s1;
    s1, d := SendAlone(s0, s, c);
    s' := SettleAlone(s0, s1, c, d.buf);
  }

  /** The counters after n messages. */
  function ReportedTimes(st: Stats, n: nat): (st': Stats)
    ensures st'.delivered == st.delivered + n
    ensures st'.latencyQueued + st'.latencyDropped == st.latencyQueued + st.latencyDropped + n
    decreases n
  {
    if n == 0 then st else ReportedTimes(Reported(st), n - 1)
  }

  lemma {:induction false} QueueAlone(s0: State, s: State, c: nat) returns (s': State, ds: seq<Delivery>)
    requires InRange(s0) && Got(s0, c, s) && s.pumps[c] == Recv
    ensures Got(s0, c, s') && AreWrites(ds, s.chans[c].queue, s0)
    ensures ViewOf(s', c)
      == View(Recv, s.chans[c].(queue := []), s.written[c] + ds, ReportedTimes(s.stats, |s.chans[c].queue|))
    decreases |s.chans[c].queue|
  {
    hide Reaches, Next, PumpEnabled, Reported;
    var q := s.chans[c].queue;
    if q == [] {
      s', ds := s, [];
      assert s.written[c] + [] == s.written[c];
    } else {
      var s1, d := MessageAlone(s0, s, c);
      var rest;
      s', rest := QueueAlone(s0, s1, c);
      ds := [d] + rest;
      AreWritesNext(d, rest, q, s0);
      assert s.written[c] + [d] + rest == s.written[c] + ds;
    }
  }

  /** In any state a waiting pump can, by its own steps and with working writes, write its whole
      queue in order, byte for byte, count each message as delivered, and record or drop its latency. */
  lemma QueueGetsOut(s: State, c: nat) returns (s': State, ds: seq<Delivery>)
    requires InRange(s) && c < |s.pumps| && s.pumps[c] == Recv
    ensures Reaches(s, PumpStep(c, true), s') && InRange(s') && Elsewhere(s, s', c)
    ensures ViewOf(s', c)
      == View(Recv, s.chans[c].(queue := []), s.written[c] + ds, ReportedTimes(s.stats, |s.chans[c].queue|))
    ensures AreWrites(ds, s.chans[c].queue, s)
  {
    hide Reaches, Next, PumpEnabled;
    GotSelf(s, c);
    s', ds := QueueAlone(s, s, c);
  }
}
