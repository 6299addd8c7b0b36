/** What travels where: every channel's history, the deliveries made from it, and the accepted frames. */
module Traffic {
  import opened Wire
  import opened Model
  import opened Content

  /** A buffer was sent to a connection only with its final content, and only if addressed to it. */
  ghost predicate SentOk(s: State, c: nat, b: nat)
    requires c < |s.keys|
  {
    b < |s.bufs| && s.bufs[b].from < |s.keys| && s.bufs[b].stage == Scrubbed && s.keys[c] in For(s.keys, s.bufs[b])
  }

  ghost predicate SendsOk(s: State) {
    && |s.chans| == |s.keys|
    && forall c, j :: 0 <= c < |s.chans| && 0 <= j < |s.chans[c].pushed| ==> SentOk(s, c, s.chans[c].pushed[j])
  }

  /** A buffer still being distributed has reached only keys its loop has behind it. */
  ghost predicate SendsBehind(s: State) {
    && |s.chans| == |s.keys|
    && forall t, c, j ::
      0 <= t < |s.readers| && s.readers[t].Handling? && 0 <= c < |s.chans| && 0 <= j < |s.chans[c].pushed|
      && s.chans[c].pushed[j] == s.readers[t].w.buf
      && Served(s.readers[t].w, s.readers[t].at) <= |s.readers[t].w.targets|
      ==> s.keys[c] in s.readers[t].w.targets[..Served(s.readers[t].w, s.readers[t].at)]
  }

  /** A buffer is sent at most once per key, whatever connections come and go under that key. */
  ghost predicate SentOncePerKey(s: State) {
    && |s.chans| == |s.keys|
    && forall c, j, c', j' ::
      0 <= c < |s.chans| && 0 <= j < |s.chans[c].pushed| && 0 <= c' < |s.chans| && 0 <= j' < |s.chans[c'].pushed|
      && s.chans[c].pushed[j] == s.chans[c'].pushed[j'] && (c != c' || j != j')
      ==> s.keys[c] != s.keys[c']
  }

  /** On each channel, the buffers of one sender appear in the order of their allocation. */
  ghost predicate SentInOrder(s: State) {
    forall c, i, j :: 0 <= c < |s.chans| && 0 <= i < j < |s.chans[c].pushed|
      && s.chans[c].pushed[i] < |s.bufs| && s.chans[c].pushed[j] < |s.bufs|
      && s.bufs[s.chans[c].pushed[i]].from == s.bufs[s.chans[c].pushed[j]].from
      ==> s.chans[c].pushed[i] < s.chans[c].pushed[j]
  }

  /** The queue is what the pump has not taken yet; what it has in hand it took last. */
  predicate TailOk(ch: Chan, p: Pump) {
    && |ch.queue| <= |ch.pushed|
    && ch.queue == ch.pushed[|ch.pushed| - |ch.queue|..]
    && (p.Writing? || p.Freeing? || p.DrainFreeing? ==>
          |ch.queue| < |ch.pushed| && ch.pushed[|ch.pushed| - |ch.queue| - 1] == p.buf)
  }

  ghost predicate TailsOk(s: State) {
    && |s.chans| == |s.pumps|
    && forall c :: 0 <= c < |s.chans| ==> TailOk(s.chans[c], s.pumps[c])
  }

  /** Deliveries were taken from the channel, in order, with the buffer's bytes. */
  ghost predicate DeliveriesOk(ds: seq<Delivery>, ch: Chan, p: Pump, bufs: seq<Buf>) {
    && (forall j :: 0 <= j < |ds| ==>
          && 0 <= ds[j].pos < |ch.pushed| - |ch.queue| - (if p.Writing? then 1 else 0)
          && ch.pushed[ds[j].pos] == ds[j].buf
          && ds[j].buf < |bufs| && ds[j].bytes == bufs[ds[j].buf].bytes)
    && forall i, j :: 0 <= i < j < |ds| ==> ds[i].pos < ds[j].pos
  }

  ghost predicate WritesOk(s: State) {
    && |s.written| == |s.chans| == |s.pumps|
    && forall c :: 0 <= c < |s.chans| ==> DeliveriesOk(s.written[c], s.chans[c], s.pumps[c], s.bufs)
  }

  /** The accepted frames of t, oldest first, are exactly its buffers that were filled. */
  ghost predicate AcceptedOk(log: seq<nat>, t: nat, bufs: seq<Buf>) {
    && (forall i, j :: 0 <= i < j < |log| ==> log[i] < log[j])
    && (forall b :: b in log <==>
          0 <= b < |bufs| && bufs[b].from == t && (bufs[b].stage == Raw || bufs[b].stage == Scrubbed))
  }

  ghost predicate AcceptsOk(s: State) {
    && |s.accepted| == |s.readers|
    && forall t :: 0 <= t < |s.accepted| ==> AcceptedOk(s.accepted[t], t, s.bufs)
  }

  ghost predicate Traced(s: State) {
    SendsOk(s) && SendsBehind(s) && SentOncePerKey(s) && SentInOrder(s)
  }

  // --- Buffers keep their origin, and their content once it is final ---

  ghost predicate OriginsKept(bufs: seq<Buf>, bufs': seq<Buf>) {
    && |bufs| <= |bufs'|
    && forall b :: 0 <= b < |bufs| ==>
      && bufs'[b].from == bufs[b].from && bufs'[b].stream == bufs[b].stream
      && (bufs[b].stage == Scrubbed ==> bufs'[b].stage == Scrubbed && bufs'[b].bytes == bufs[b].bytes)
  }

  lemma OpKeepsOrigins(s: State, t: nat, op: BufOp)
    requires t < |s.keys| && OpInRange(op, |s.bufs|) && OpContent(s, t, op)
    ensures OriginsKept(s.bufs, Bufs(s.bufs, op))
  {
  }

  lemma PumpKeepsOrigins(bufs: seq<Buf>, op: BufOp)
    requires OpInRange(op, |bufs|) && (op.NoOp? || op.Read? || op.Release?)
    ensures OriginsKept(bufs, Bufs(bufs, op))
  {
  }

  // --- Read loops ---

  lemma SendsAfterRead(s: State, t: nat, m: ReadMove)
    requires InRange(s) && t < |s.readers| && ReadMoveInRange(s, m) && ReadContent(s, t, m)
    requires SendsOk(s) && ReadersOk(s)
    ensures SendsOk(ApplyRead(s, t, m))
  {
    hide ReaderInRange, PumpInRange, QueueInRange, BufFault, RegistryAfter, PumpsAfter, AcceptedAfter;
    var s' := ApplyRead(s, t, m);
    OpKeepsOrigins(s, t, m.op);
    assert ReaderOk(s.readers[t], t, s.bufs, s.keys);
    forall c, j | 0 <= c < |s'.chans| && 0 <= j < |s'.chans[c].pushed| ensures SentOk(s', c, s'.chans[c].pushed[j]) {
      if j < |s.chans[c].pushed| {
        assert SentOk(s, c, s.chans[c].pushed[j]);
      }
    }
  }

  /** The send of a step, if there is one, goes to a key its buffer has not been sent to. */
  lemma SendIsNew(s: State, t: nat, m: ReadMove, c: nat, j: nat)
    requires InRange(s) && t < |s.readers| && ReadMoveInRange(s, m) && Sends(s, t, m)
    requires ReadersOk(s) && SendsBehind(s)
    requires c < |s.chans| && j < |s.chans[c].pushed| && s.chans[c].pushed[j] == s.readers[t].w.buf
    ensures s.keys[c] != s.keys[m.dest]
  {
    var r := s.readers[t];
    assert ReaderOk(r, t, s.bufs, s.keys);
    assert s.keys[c] in r.w.targets[..r.w.i];
  }

  /** An old send of the buffer that the acting loop distributes. */
  lemma StillBehind(s: State, t: nat, m: ReadMove, c: nat, b: nat)
    requires InRange(s) && t < |s.readers| && ReadMoveInRange(s, m) && ReadContent(s, t, m)
    requires ReadersOk(s) && SendsBehind(s) && c < |s.chans| && SentOk(s, c, b) && b in s.chans[c].pushed
    requires m.next.Handling? && b == m.next.w.buf && Served(m.next.w, m.next.at) <= |m.next.w.targets|
    ensures s.keys[c] in m.next.w.targets[..Served(m.next.w, m.next.at)]
  {
    hide InRange, ReadMoveInRange, OpContent, Bufs;
    var r := s.readers[t];
    assert ReaderOk(r, t, s.bufs, s.keys);
    var j :| 0 <= j < |s.chans[c].pushed| && s.chans[c].pushed[j] == b;
    assert r.Handling?;
    assert s.keys[c] in r.w.targets[..Served(r.w, r.at)];
    PrefixGrows(r.w.targets, Served(r.w, r.at), Served(m.next.w, m.next.at), s.keys[c]);
  }

  /** The send of the acting loop itself. */
  lemma JustServed(s: State, t: nat, m: ReadMove)
    requires InRange(s) && t < |s.readers| && ReadMoveInRange(s, m) && Sends(s, t, m) && ReadersOk(s)
    ensures m.next.Handling? && m.dest < |s.keys|
    ensures Served(m.next.w, m.next.at) <= |m.next.w.targets|
      && s.keys[m.dest] in m.next.w.targets[..Served(m.next.w, m.next.at)]
  {
    var w := m.next.w;
    assert ReaderOk(s.readers[t], t, s.bufs, s.keys);
    assert w.targets[..w.i + 1][w.i] == s.keys[m.dest];
  }

  /** No other loop distributes the buffer that the acting loop sends. */
  lemma NobodyElses(s: State, t: nat, m: ReadMove, u: nat)
    requires ReadersOk(s) && t < |s.readers| && u < |s.readers| && m.dest < |s.chans| && Sends(s, t, m)
    requires u != t && s.readers[u].Handling?
    ensures s.readers[u].w.buf != s.readers[t].w.buf
  {
    assert ReaderOk(s.readers[u], u, s.bufs, s.keys) && ReaderOk(s.readers[t], t, s.bufs, s.keys);
  }

  lemma SendsBehindAfterRead(s: State, t: nat, m: ReadMove)
    requires InRange(s) && t < |s.readers| && ReadMoveInRange(s, m) && ReadContent(s, t, m)
    requires SendsOk(s) && SendsBehind(s) && ReadersOk(s)
    ensures SendsBehind(ApplyRead(s, t, m))
  {
    hide ReaderInRange, PumpInRange, QueueInRange, BufFault, RegistryAfter, PumpsAfter, AcceptedAfter, OpContent, Bufs,
      ReaderOk, SentOk, Served;
    var s' := ApplyRead(s, t, m);
    forall u, c, j | 0 <= u < |s'.readers| && s'.readers[u].Handling? && 0 <= c < |s'.chans|
      && 0 <= j < |s'.chans[c].pushed| && s'.chans[c].pushed[j] == s'.readers[u].w.buf
      && Served(s'.readers[u].w, s'.readers[u].at) <= |s'.readers[u].w.targets|
      ensures s'.keys[c] in s'.readers[u].w.targets[..Served(s'.readers[u].w, s'.readers[u].at)]
    {
      if j < |s.chans[c].pushed| {
        assert SentOk(s, c, s.chans[c].pushed[j]);
        if u == t {
          StillBehind(s, t, m, c, s.chans[c].pushed[j]);
        }
      } else {
        JustServed(s, t, m);
        if u != t {
          NobodyElses(s, t, m, u);
        }
      }
    }
  }

  lemma PrefixGrows(ids: seq<Id>, i: nat, j: nat, id: Id)
    requires i <= j <= |ids| && id in ids[..i]
    ensures id in ids[..j]
  {
    var k :| 0 <= k < i && ids[..i][k] == id;
    assert ids[..j][k] == id;
  }

  /** A step adds at most its send to a channel's history. */
  lemma HistoryAfterRead(s: State, t: nat, m: ReadMove, c: nat)
    requires InRange(s) && t < |s.readers| && ReadMoveInRange(s, m) && ReadContent(s, t, m) && c < |s.chans|
    ensures var (ch, s') := (s.chans[c], ApplyRead(s, t, m));
      && |s'.chans| == |s.chans|
      && (s'.chans[c].pushed == ch.pushed
          || (c == m.dest && Sends(s, t, m) && s'.chans[c].pushed == ch.pushed + [s.readers[t].w.buf]))
  {
    hide ReaderInRange, PumpInRange, QueueInRange, BufFault, RegistryAfter, PumpsAfter, AcceptedAfter, OpContent, Bufs,
      ReaderOk, Served;
  }

  lemma SameConnections(s: State, t: nat, m: ReadMove)
    requires InRange(s) && t < |s.readers| && ReadMoveInRange(s, m)
    ensures |ApplyRead(s, t, m).chans| == |s.chans| == |s.keys| && ApplyRead(s, t, m).keys == s.keys
  {
  }

  lemma OnceAfterRead(s: State, t: nat, m: ReadMove)
    requires InRange(s) && t < |s.readers| && ReadMoveInRange(s, m) && ReadContent(s, t, m)
    requires SendsBehind(s) && SentOncePerKey(s) && ReadersOk(s)
    ensures SentOncePerKey(ApplyRead(s, t, m))
  {
    hide ApplyRead, InRange, ReadMoveInRange, ReadContent, ReadersOk, SendsBehind, Sends;
    var s' := ApplyRead(s, t, m);
    SameConnections(s, t, m);
    forall c, j, c', j' | 0 <= c < |s'.chans| && 0 <= j < |s'.chans[c].pushed|
      && 0 <= c' < |s'.chans| && 0 <= j' < |s'.chans[c'].pushed|
      && s'.chans[c].pushed[j] == s'.chans[c'].pushed[j'] && (c != c' || j != j')
      ensures s'.keys[c] != s'.keys[c']
    {
      HistoryAfterRead(s, t, m, c);
      HistoryAfterRead(s, t, m, c');
      var isOld, isOld' := j < |s.chans[c].pushed|, j' < |s.chans[c'].pushed|;
      if isOld && !isOld' {
        SendIsNew(s, t, m, c, j);
      } else if !isOld && isOld' {
        SendIsNew(s, t, m, c', j');
      }
    }
  }

  lemma OrderAfterRead(s: State, t: nat, m: ReadMove)
    requires InRange(s) && t < |s.readers| && ReadMoveInRange(s, m) && ReadContent(s, t, m)
    requires SendsOk(s) && SendsBehind(s) && SentInOrder(s) && ReadersOk(s)
    ensures SentInOrder(ApplyRead(s, t, m))
  {
    hide ReaderInRange, PumpInRange, QueueInRange, BufFault, RegistryAfter, PumpsAfter, AcceptedAfter, OpContent,
      SendsBehind, Served;
    var s' := ApplyRead(s, t, m);
    OpKeepsOrigins(s, t, m.op);
    forall c, i, j | 0 <= c < |s'.chans| && 0 <= i < j < |s'.chans[c].pushed|
      && s'.chans[c].pushed[i] < |s'.bufs| && s'.chans[c].pushed[j] < |s'.bufs|
      && s'.bufs[s'.chans[c].pushed[i]].from == s'.bufs[s'.chans[c].pushed[j]].from
      ensures s'.chans[c].pushed[i] < s'.chans[c].pushed[j]
    {
      assert SentOk(s, c, s.chans[c].pushed[i]);
      if j < |s.chans[c].pushed| {
        assert SentOk(s, c, s.chans[c].pushed[j]);
      } else {
        assert ReaderOk(s.readers[t], t, s.bufs, s.keys);
        if s.chans[c].pushed[i] == s.readers[t].w.buf {
          SendIsNew(s, t, m, c, i);
        }
      }
    }
  }

  lemma TracedAfterRead(s: State, t: nat, m: ReadMove)
    requires InRange(s) && t < |s.readers| && ReadMoveInRange(s, m) && ReadContent(s, t, m)
    requires Traced(s) && ReadersOk(s)
    ensures Traced(ApplyRead(s, t, m))
  {
    SendsAfterRead(s, t, m);
    SendsBehindAfterRead(s, t, m);
    OnceAfterRead(s, t, m);
    OrderAfterRead(s, t, m);
  }

  lemma TailAfterSend(ch: Chan, p: Pump, b: nat)
    requires TailOk(ch, p)
    ensures TailOk(ch.(queue := ch.queue + [b], pushed := ch.pushed + [b]), p)
  {
  }

  /** A waiting pump, or the one there was, keeps its place in an unchanged channel. */
  lemma TailKept(ch: Chan, p: Pump, ch': Chan, p': Pump)
    requires TailOk(ch, p) && ch'.queue == ch.queue && ch'.pushed == ch.pushed && (p' == p || p' == Recv)
    ensures TailOk(ch', p')
  {
  }

  lemma TailsAfterRead(s: State, t: nat, m: ReadMove)
    requires InRange(s) && t < |s.readers| && ReadMoveInRange(s, m) && ReadContent(s, t, m)
    requires TailsOk(s) && (s.readers[t].Starting? ==> s.pumps[t].Unstarted?)
    ensures TailsOk(ApplyRead(s, t, m))
  {
    hide ReaderInRange, PumpInRange, QueueInRange, BufFault, RegistryAfter, AcceptedAfter, OpContent, Bufs, ReaderOk,
      TailOk;
    var s' := ApplyRead(s, t, m);
    forall c | 0 <= c < |s'.chans| ensures TailOk(s'.chans[c], s'.pumps[c]) {
      assert TailOk(s.chans[c], s.pumps[c]);
      if c == m.dest && Sends(s, t, m) {
        TailAfterSend(s.chans[c], s.pumps[c], s.readers[t].w.buf);
      } else {
        TailKept(s.chans[c], s.pumps[c], s'.chans[c], s'.pumps[c]);
      }
    }
  }

  lemma WritesAfterRead(s: State, t: nat, m: ReadMove)
    requires InRange(s) && t < |s.readers| && ReadMoveInRange(s, m) && ReadContent(s, t, m)
    requires SendsOk(s) && WritesOk(s) && (s.readers[t].Starting? ==> s.pumps[t].Unstarted?)
    ensures WritesOk(ApplyRead(s, t, m))
  {
    hide ReaderInRange, PumpInRange, QueueInRange, BufFault, RegistryAfter, AcceptedAfter, OpContent, Bufs, ReaderOk;
    var s' := ApplyRead(s, t, m);
    OpKeepsOrigins(s, t, m.op);
    forall c | 0 <= c < |s'.chans| ensures DeliveriesOk(s'.written[c], s'.chans[c], s'.pumps[c], s'.bufs) {
      DeliveriesKept(s, c, s'.bufs);
    }
  }

  /** Accepting the newest buffer of t extends its log. */
  lemma AcceptAppends(log: seq<nat>, t: nat, bufs: seq<Buf>, op: BufOp)
    requires AcceptedOk(log, t, bufs)
    requires op.Write? && op.stage == Raw && op.b < |bufs| && bufs[op.b].from == t && bufs[op.b].stage == Reading
    requires forall x :: 0 <= x < |bufs| && bufs[x].from == t ==> x <= op.b
    ensures AcceptedOk(log + [op.b], t, Bufs(bufs, op))
  {
    var log' := log + [op.b];
    forall i, j | 0 <= i < j < |log'| ensures log'[i] < log'[j] {
      assert log'[i] in log;
    }
    forall b ensures b in log' <==> b in log || b == op.b {
    }
  }

  /** Any other operation leaves the logs valid: it moves no buffer into or out of the filled stages. */
  lemma LogStays(log: seq<nat>, u: nat, s: State, t: nat, op: BufOp)
    requires AcceptedOk(log, u, s.bufs) && t < |s.keys| && OpInRange(op, |s.bufs|) && OpContent(s, t, op)
    requires op.Write? && op.stage == Raw ==> u != t
    ensures AcceptedOk(log, u, Bufs(s.bufs, op))
  {
  }

  lemma AcceptsAfterRead(s: State, t: nat, m: ReadMove)
    requires InRange(s) && t < |s.readers| && ReadMoveInRange(s, m) && ReadContent(s, t, m)
    requires AcceptsOk(s) && ReadersOk(s)
    ensures AcceptsOk(ApplyRead(s, t, m))
  {
    var s' := ApplyRead(s, t, m);
    assert ReaderOk(s.readers[t], t, s.bufs, s.keys);
    forall u | 0 <= u < |s'.accepted| ensures AcceptedOk(s'.accepted[u], u, s'.bufs) {
      assert AcceptedOk(s.accepted[u], u, s.bufs);
      if u == t && m.op.Write? && m.op.stage == Raw {
        AcceptAppends(s.accepted[u], u, s.bufs, m.op);
      } else {
        LogStays(s.accepted[u], u, s, t, m.op);
      }
    }
  }

  // --- Write pumps ---

  /** What a pump's step means for its channel's history. */
  ghost predicate PumpTraffic(s: State, c: nat, m: PumpMove)
    requires c < |s.pumps| && c < |s.chans|
  {
    var (p, ch) := (s.pumps[c], s.chans[c]);
    && (m.op.NoOp? || m.op.Read? || m.op.Release?)
    && m.chan.pushed == ch.pushed
    && (if (p.Recv? || p.Draining?) && ch.queue != [] then
          m.chan.queue == ch.queue[1..] && (m.next == Writing(ch.queue[0]) || m.next == DrainFreeing(ch.queue[0]))
        else
          m.chan.queue == ch.queue
          && (m.next.Writing? || m.next.DrainFreeing? ==> m.next == p)
          && (m.next.Freeing? ==> (p.Writing? || p.Freeing?) && m.next.buf == p.buf))
    && (m.sent.Some? ==>
          p.Writing? && m.next.Freeing? && p.buf < |s.bufs|
          && m.sent.value == Delivery(p.buf, |ch.pushed| - |ch.queue| - 1, s.bufs[p.buf].bytes))
  }

  lemma PumpTrafficOf(s: State, c: nat, writeOk: bool)
    requires InRange(s) && PumpEnabled(s, c)
    ensures PumpTraffic(s, c, PumpMoveOf(s, c, writeOk))
  {
    assert PumpInRange(s.pumps[c], |s.bufs|);
  }

  lemma TracedAfterPump(s: State, c: nat, m: PumpMove)
    requires InRange(s) && c < |s.pumps| && PumpMoveInRange(s, m) && PumpTraffic(s, c, m) && Traced(s)
    ensures Traced(ApplyPump(s, c, m))
  {
    hide PumpInRange, QueueInRange, ReaderInRange, BufFault, Bufs;
    var s' := ApplyPump(s, c, m);
    PumpKeepsOrigins(s.bufs, m.op);
    forall d, j | 0 <= d < |s'.chans| && 0 <= j < |s'.chans[d].pushed| ensures SentOk(s', d, s'.chans[d].pushed[j]) {
      assert SentOk(s, d, s.chans[d].pushed[j]);
    }
    forall d | 0 <= d < |s'.chans| ensures s'.chans[d].pushed == s.chans[d].pushed {
    }
    assert SendsBehind(s');
    assert SentOncePerKey(s');
    assert SentInOrder(s');
  }

  lemma TailsAfterPump(s: State, c: nat, m: PumpMove)
    requires InRange(s) && c < |s.pumps| && PumpMoveInRange(s, m) && PumpTraffic(s, c, m) && TailsOk(s)
    ensures TailsOk(ApplyPump(s, c, m))
  {
    var s' := ApplyPump(s, c, m);
    forall d | 0 <= d < |s'.chans| ensures TailOk(s'.chans[d], s'.pumps[d]) {
      assert TailOk(s.chans[d], s.pumps[d]);
    }
  }

  /** Deliveries depend on their channel's history and on the final content of the buffers only. */
  lemma DeliveriesKept(s: State, c: nat, bufs': seq<Buf>)
    requires c < |s.chans| == |s.pumps| == |s.written| && SendsOk(s) && WritesOk(s) && OriginsKept(s.bufs, bufs')
    ensures DeliveriesOk(s.written[c], s.chans[c], s.pumps[c], bufs')
  {
    var ds := s.written[c];
    assert DeliveriesOk(ds, s.chans[c], s.pumps[c], s.bufs);
    forall j | 0 <= j < |ds| ensures ds[j].bytes == bufs'[ds[j].buf].bytes {
      assert SentOk(s, c, s.chans[c].pushed[ds[j].pos]);
    }
  }

  /** How much of the channel's history has been taken and settled. */
  function Settled(ch: Chan, p: Pump): int {
    |ch.pushed| - |ch.queue| - if p.Writing? then 1 else 0
  }

  lemma DeliveriesStay(ds: seq<Delivery>, ch: Chan, p: Pump, ch': Chan, p': Pump, bufs: seq<Buf>)
    requires DeliveriesOk(ds, ch, p, bufs)
    requires ch'.pushed == ch.pushed && Settled(ch, p) <= Settled(ch', p') <= |ch.pushed|
    ensures DeliveriesOk(ds, ch', p', bufs)
  {
  }

  lemma DeliveriesAppend(ds: seq<Delivery>, ch: Chan, p: Pump, ch': Chan, p': Pump, bufs: seq<Buf>)
    requires p.Writing? && p.buf < |bufs| && !p'.Writing? && TailOk(ch, p) && DeliveriesOk(ds, ch, p, bufs)
    requires ch'.pushed == ch.pushed && ch'.queue == ch.queue
    ensures DeliveriesOk(ds + [Delivery(p.buf, |ch.pushed| - |ch.queue| - 1, bufs[p.buf].bytes)], ch', p', bufs)
  {
  }

  lemma PumpSettles(s: State, c: nat, m: PumpMove)
    requires c < |s.pumps| && c < |s.chans| && PumpTraffic(s, c, m) && TailOk(s.chans[c], s.pumps[c])
    ensures Settled(s.chans[c], s.pumps[c]) <= Settled(m.chan, m.next) <= |s.chans[c].pushed|
    ensures m.sent.Some? ==> m.chan.queue == s.chans[c].queue
  {
  }

  lemma OwnDeliveries(s: State, c: nat, m: PumpMove, bufs': seq<Buf>)
    requires c < |s.chans| == |s.pumps| == |s.written| && PumpTraffic(s, c, m) && TailOk(s.chans[c], s.pumps[c])
    requires |bufs'| == |s.bufs| && (s.pumps[c].Writing? && s.pumps[c].buf < |s.bufs| ==>
      bufs'[s.pumps[c].buf].bytes == s.bufs[s.pumps[c].buf].bytes)
    requires DeliveriesOk(s.written[c], s.chans[c], s.pumps[c], bufs')
    ensures m.sent.Some? ==> DeliveriesOk(s.written[c] + [m.sent.value], m.chan, m.next, bufs')
    ensures m.sent.None? ==> DeliveriesOk(s.written[c], m.chan, m.next, bufs')
  {
    var (ds, ch, p) := (s.written[c], s.chans[c], s.pumps[c]);
    PumpSettles(s, c, m);
    if m.sent.Some? {
      DeliveriesAppend(ds, ch, p, m.chan, m.next, bufs');
    } else {
      DeliveriesStay(ds, ch, p, m.chan, m.next, bufs');
    }
  }

  lemma WritesAfterPump(s: State, c: nat, m: PumpMove)
    requires InRange(s) && c < |s.pumps| && PumpMoveInRange(s, m) && PumpTraffic(s, c, m)
    requires TailsOk(s) && WritesOk(s) && SendsOk(s)
    ensures WritesOk(ApplyPump(s, c, m))
  {
    var s' := ApplyPump(s, c, m);
    PumpKeepsOrigins(s.bufs, m.op);
    forall d | 0 <= d < |s'.chans| ensures DeliveriesOk(s'.written[d], s'.chans[d], s'.pumps[d], s'.bufs) {
      DeliveriesKept(s, d, s'.bufs);
      assert TailOk(s.chans[d], s.pumps[d]);
      if d == c {
        OwnDeliveries(s, c, m, s'.bufs);
      }
    }
  }

  lemma AcceptsAfterPump(s: State, c: nat, m: PumpMove)
    requires InRange(s) && c < |s.pumps| && PumpMoveInRange(s, m) && PumpTraffic(s, c, m) && AcceptsOk(s)
    ensures AcceptsOk(ApplyPump(s, c, m))
  {
    var s' := ApplyPump(s, c, m);
    forall u | 0 <= u < |s'.accepted| ensures AcceptedOk(s'.accepted[u], u, s'.bufs) {
      assert AcceptedOk(s.accepted[u], u, s.bufs);
    }
  }

  // --- A new connection ---

  lemma SendsAfterAccept(s: State, key: Id)
    requires InRange(s) && SendsOk(s)
    ensures SendsOk(ApplyAccept(s, key))
  {
    var s' := ApplyAccept(s, key);
    forall c, j | 0 <= c < |s'.chans| && 0 <= j < |s'.chans[c].pushed| ensures SentOk(s', c, s'.chans[c].pushed[j]) {
      assert SentOk(s, c, s.chans[c].pushed[j]);
    }
  }

  lemma SendsBehindAfterAccept(s: State, key: Id)
    requires InRange(s) && SendsBehind(s)
    ensures SendsBehind(ApplyAccept(s, key))
  {
  }

  lemma OnceAfterAccept(s: State, key: Id)
    requires InRange(s) && SentOncePerKey(s)
    ensures SentOncePerKey(ApplyAccept(s, key))
  {
  }

  lemma TracedAfterAccept(s: State, key: Id)
    requires InRange(s) && Traced(s)
    ensures Traced(ApplyAccept(s, key))
  {
    SendsAfterAccept(s, key);
    SendsBehindAfterAccept(s, key);
    OnceAfterAccept(s, key);
    assert SentInOrder(ApplyAccept(s, key));
  }

  lemma LogsAfterAccept(s: State, key: Id)
    requires InRange(s) && TailsOk(s) && WritesOk(s) && AcceptsOk(s) && BufsOk(s)
    ensures TailsOk(ApplyAccept(s, key)) && WritesOk(ApplyAccept(s, key)) && AcceptsOk(ApplyAccept(s, key))
  {
    var s' := ApplyAccept(s, key);
    forall c | 0 <= c < |s'.chans|
      ensures TailOk(s'.chans[c], s'.pumps[c])
      ensures DeliveriesOk(s'.written[c], s'.chans[c], s'.pumps[c], s'.bufs)
      ensures AcceptedOk(s'.accepted[c], c, s'.bufs)
    {
      if c < |s.chans| {
        assert TailOk(s.chans[c], s.pumps[c]);
        assert DeliveriesOk(s.written[c], s.chans[c], s.pumps[c], s.bufs);
        assert AcceptedOk(s.accepted[c], c, s.bufs);
      } else {
        forall b | 0 <= b < |s.bufs| ensures s.bufs[b].from != c {
          assert BufOk(s.bufs[b], s.keys);
        }
      }
    }
  }
}
