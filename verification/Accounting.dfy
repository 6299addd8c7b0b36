/** What the counters say about what happened to messages. */
module Accounting {
  import opened Wire
  import opened Message
  import opened Codec
  import opened Parser
  import opened Folds
  import opened Model
  import opened Content

  function Queued(ch: Chan): int { |ch.queue| }

  /** The pump holds a message whose fate is not in the books yet. */
  function Unsettled(p: Pump): int {
    if p.Writing? || p.DrainFreeing? || (p.Freeing? && p.ok) || (p.Reporting? && p.ok) then 1 else 0
  }

  /** A write has failed and IncrementDeliveryFailure is still to come. */
  function FailurePending(p: Pump): int {
    if (p.Freeing? && !p.ok) || (p.Reporting? && !p.ok) then 1 else 0
  }

  /** A push was dropped and IncrementDeliveryFailure is still to come. */
  function DropPending(r: ReadLoop): int {
    if r.Handling? && (r.at.AtUndo? || r.at.AtCount? || (r.at.AtUnlock? && !r.at.ok)) then 1 else 0
  }

  /** A message has been counted as processed, and has neither reached a queue nor been given up. */
  function Undecided(r: ReadLoop): int {
    if r.Zeroing? || (r.Handling? && r.w.matched == 0 && !(r.at.AtUnlock? && r.at.ok)) then 1 else 0
  }

  /** Every message pushed was delivered, lost in a failed write, drained, or is still on its way. */
  ghost predicate PushesBalance(s: State) {
    s.stats.pushes == s.stats.delivered + s.stats.writeFails + s.stats.drained
      + Tally(s.chans, Queued) + Tally(s.pumps, Unsettled)
  }

  /** noRecip counts dropped pushes, messages nobody got, and failed writes. */
  ghost predicate FailuresBalance(s: State) {
    s.stats.noRecip + Tally(s.readers, DropPending) + Tally(s.pumps, FailurePending)
      == s.stats.dropped + s.stats.zeroMatch + s.stats.writeFails
  }

  /** Every processed message ends in its first push or without any; further pushes are extra. */
  ghost predicate OutcomesBalance(s: State) {
    s.stats.processed + s.stats.extra == s.stats.pushes + s.stats.zeroMatch + Tally(s.readers, Undecided)
  }

  /** A distributed frame with several recipients besides its sender. */
  ghost predicate ForMany(s: State, b: nat) {
    && b < |s.bufs| && s.bufs[b].stage == Scrubbed && s.bufs[b].from < |s.keys|
    && |For(s.keys, s.bufs[b])| > 1
  }

  /** Extra pushes occur only if some distributed frame has several recipients. */
  ghost predicate ExtraNeedsMany(s: State) {
    s.stats.extra > 0 ==>
      exists b: nat :: ForMany(s, b)
  }

  /** A write has been counted as delivered, and its RecordLatency is still to come. */
  function RecordPending(p: Pump): int {
    if p.Recording? then 1 else 0
  }

  function WorkerHolds(w: Worker): int {
    if w == Booking then 1 else 0
  }

  /** Every delivery's latency is counted, lost at the full channel, or on its way to the count. */
  ghost predicate LatenciesBalance(s: State) {
    && s.stats.latencyQueued <= LATENCY_CAP
    && s.stats.delivered == s.stats.latencyCount + s.stats.latencyDropped
      + s.stats.latencyQueued + WorkerHolds(s.worker) + Tally(s.pumps, RecordPending)
  }

  function Writes(ds: seq<Delivery>): int { |ds| }

  /** A message has been written, and IncrementDeliverySuccess is still to come. */
  function ReportPending(p: Pump): int {
    if (p.Freeing? && p.ok) || (p.Reporting? && p.ok) then 1 else 0
  }

  /** What has been written anywhere is counted as delivered, or about to be. */
  ghost predicate WritesBalance(s: State) {
    Tally(s.written, Writes) == s.stats.delivered + Tally(s.pumps, ReportPending)
  }

  ghost predicate Balanced(s: State) {
    PushesBalance(s) && FailuresBalance(s) && OutcomesBalance(s) && LatenciesBalance(s) && WritesBalance(s)
  }

  ghost predicate ReadBooks(s: State, t: nat, m: ReadMove)
    requires t < |s.readers| && m.dest < |s.chans|
  {
    var (r, st, st') := (s.readers[t], s.stats, m.stats);
    && (st'.delivered, st'.writeFails, st'.drained) == (st.delivered, st.writeFails, st.drained)
    && st'.pushes - st.pushes == |m.chan.queue| - |s.chans[m.dest].queue|
    && st'.noRecip + DropPending(m.next) - st'.dropped - st'.zeroMatch
       == st.noRecip + DropPending(r) - st.dropped - st.zeroMatch
    && st'.processed + st'.extra - st'.pushes - st'.zeroMatch - Undecided(m.next)
       == st.processed + st.extra - st.pushes - st.zeroMatch - Undecided(r)
    && (st'.latencyCount, st'.latencyQueued, st'.latencyDropped)
       == (st.latencyCount, st.latencyQueued, st.latencyDropped)
    && (st'.extra != st.extra ==> r.Handling? && r.w.matched > 0 && r.at.AtSend?)
  }

  lemma RouteBooks(s: State, t: nat)
    requires InRange(s) && t < |s.readers| && OnRoute(s.readers[t])
    ensures ReadBooks(s, t, RouteMove(s, t))
  {
  }

  lemma PushBooks(s: State, t: nat)
    requires InRange(s) && t < |s.readers| && OnPush(s.readers[t]) && PushMove(s, t).dest < |s.chans|
    ensures ReadBooks(s, t, PushMove(s, t))
  {
    assert ReaderInRange(s.readers[t], |s.bufs|, |s.keys|);
  }

  lemma ReadBooksOf(s: State, t: nat, ev: Event)
    requires InRange(s) && ReadEnabled(s, t, ev) && MoveOf(s, t, ev).dest < |s.chans|
    ensures ReadBooks(s, t, MoveOf(s, t, ev))
  {
    hide ReadBooks, LifeMove, FrameMove, RouteMove, PushMove;
    if OnRoute(s.readers[t]) {
      RouteBooks(s, t);
    } else if OnPush(s.readers[t]) {
      PushBooks(s, t);
    } else if OnFrame(s.readers[t]) {
      FrameBooks(s, t, ev.Stalled?);
    } else {
      LifeBooks(s, t, ev);
    }
  }

  lemma FrameBooks(s: State, t: nat, stalled: bool)
    requires InRange(s) && t < |s.readers| && OnFrame(s.readers[t])
    ensures ReadBooks(s, t, FrameMove(s, t, stalled))
  {
    hide Verdict, Zeroed, ReaderInRange, PumpInRange, QueueInRange;
  }

  lemma LifeBooks(s: State, t: nat, ev: Event)
    requires InRange(s) && ReadEnabled(s, t, ev) && !s.readers[t].Handling? && !OnFrame(s.readers[t])
    ensures ReadBooks(s, t, LifeMove(s, t, ev))
  {
    hide ParseHeader, ReaderInRange, PumpInRange, QueueInRange;
  }

  /** A pump's step in the books of deliveries and latencies. */
  ghost predicate PumpReports(s: State, c: nat, m: PumpMove)
    requires c < |s.pumps|
  {
    var (p, st, st') := (s.pumps[c], s.stats, m.stats);
    && st'.latencyCount == st.latencyCount
    && (st'.latencyQueued != st.latencyQueued ==> st'.latencyQueued <= LATENCY_CAP)
    && st'.latencyDropped >= st.latencyDropped
    && st'.delivered - st'.latencyQueued - st'.latencyDropped - RecordPending(m.next)
       == st.delivered - st.latencyQueued - st.latencyDropped - RecordPending(p)
    && st'.delivered + ReportPending(m.next) == st.delivered + ReportPending(p) + if m.sent.Some? then 1 else 0
  }

  ghost predicate PumpBooks(s: State, c: nat, m: PumpMove)
    requires c < |s.pumps| && c < |s.chans|
  {
    PumpReports(s, c, m) &&
    var (p, st, st') := (s.pumps[c], s.stats, m.stats);
    && (st'.connCount, st'.pushes, st'.dropped, st'.zeroMatch) == (st.connCount, st.pushes, st.dropped, st.zeroMatch)
    && (st'.processed, st'.extra) == (st.processed, st.extra)
    && st'.delivered + st'.writeFails + st'.drained + |m.chan.queue| + Unsettled(m.next)
       == st.delivered + st.writeFails + st.drained + |s.chans[c].queue| + Unsettled(p)
    && st'.noRecip + FailurePending(m.next) - st'.writeFails == st.noRecip + FailurePending(p) - st.writeFails
  }

  lemma PumpReportsOf(s: State, c: nat, writeOk: bool)
    requires InRange(s) && PumpEnabled(s, c)
    ensures PumpReports(s, c, PumpMoveOf(s, c, writeOk))
  {
  }

  lemma PumpBooksOf(s: State, c: nat, writeOk: bool)
    requires InRange(s) && PumpEnabled(s, c)
    ensures PumpBooks(s, c, PumpMoveOf(s, c, writeOk))
  {
    hide PumpReports, ReaderInRange, PumpInRange, QueueInRange;
    PumpReportsOf(s, c, writeOk);
  }

  lemma BalancedAfterRead(s: State, t: nat, m: ReadMove)
    requires InRange(s) && t < |s.readers| && ReadMoveInRange(s, m) && ReadBooks(s, t, m) && Balanced(s)
    requires s.readers[t].Starting? ==> s.pumps[t].Unstarted?
    ensures Balanced(ApplyRead(s, t, m))
  {
    TallyUpdate(s.readers, t, m.next, DropPending);
    TallyUpdate(s.readers, t, m.next, Undecided);
    TallyUpdate(s.chans, m.dest, m.chan, Queued);
    TallyUpdate(s.pumps, t, Recv, Unsettled);
    TallyUpdate(s.pumps, t, Recv, FailurePending);
    TallyUpdate(s.pumps, t, Recv, RecordPending);
    TallyUpdate(s.pumps, t, Recv, ReportPending);
  }

  lemma BalancedAfterPump(s: State, c: nat, m: PumpMove)
    requires InRange(s) && c < |s.pumps| && PumpMoveInRange(s, m) && PumpBooks(s, c, m) && Balanced(s)
    ensures Balanced(ApplyPump(s, c, m))
  {
    TallyUpdate(s.chans, c, m.chan, Queued);
    TallyUpdate(s.pumps, c, m.next, Unsettled);
    TallyUpdate(s.pumps, c, m.next, FailurePending);
    TallyUpdate(s.pumps, c, m.next, RecordPending);
    TallyUpdate(s.pumps, c, m.next, ReportPending);
    if m.sent.Some? {
      TallyUpdate(s.written, c, s.written[c] + [m.sent.value], Writes);
    }
  }

  lemma BalancedAfterAccept(s: State, key: Id)
    requires InRange(s) && Balanced(s)
    ensures Balanced(ApplyAccept(s, key))
  {
    TallyAppend(s.readers, Fresh, DropPending);
    TallyAppend(s.readers, Fresh, Undecided);
    TallyAppend(s.chans, Chan([], false, false, 0, false, []), Queued);
    TallyAppend(s.pumps, Unstarted, Unsettled);
    TallyAppend(s.pumps, Unstarted, FailurePending);
    TallyAppend(s.pumps, Unstarted, RecordPending);
    TallyAppend(s.pumps, Unstarted, ReportPending);
    TallyAppend(s.written, [], Writes);
  }

  lemma BalancedAfterWorker(s: State)
    requires InRange(s) && WorkerEnabled(s) && Balanced(s)
    ensures Balanced(ApplyWorker(s))
  {
  }

  /** No read loop is inside HandleMessage. */
  ghost predicate NobodyHandles(s: State) {
    forall t :: 0 <= t < |s.readers| ==>
      !s.readers[t].Received? && !s.readers[t].Counting? && !s.readers[t].Zeroing? && !s.readers[t].Handling?
  }

  function Busy(p: Pump): int { Unsettled(p) + FailurePending(p) }

  lemma {:induction false} BusySplits(ps: seq<Pump>)
    ensures Tally(ps, Busy) == Tally(ps, Unsettled) + Tally(ps, FailurePending)
  {
    if ps != [] {
      BusySplits(ps[..|ps| - 1]);
    }
  }

  /** The law that does hold between the public counters: with nobody inside HandleMessage, what
      was delivered, failed, drained or is still queued or in a pump's hand is what was processed,
      plus the pushes that were dropped (each counted a second time in noRecip), plus the
      extra copies. */
  lemma CounterLaw(s: State)
    requires Balanced(s) && NobodyHandles(s)
    ensures s.stats.delivered + s.stats.noRecip + s.stats.drained + Tally(s.chans, Queued) + Tally(s.pumps, Busy)
      == s.stats.processed + s.stats.dropped + s.stats.extra
  {
    BusySplits(s.pumps);
    TallyZero(s.readers, DropPending);
    TallyZero(s.readers, Undecided);
  }

  /** All frames distributed so far have at most one recipient besides their sender. */
  ghost predicate SingleRecipients(s: State) {
    forall b :: (0 <= b < |s.bufs| && s.bufs[b].stage == Scrubbed && s.bufs[b].from < |s.keys| ==>
      |For(s.keys, s.bufs[b])| <= 1)
  }

  /** For single-recipient traffic there are no extra copies. */
  lemma NoExtraIfSingle(s: State)
    requires ExtraNeedsMany(s)
    requires SingleRecipients(s)
    ensures s.stats.extra == 0
  {
  }
}
