/** The registry and the public counters in all reachable states. */
module Totals {
  import opened Wrappers
  import opened Wire
  import opened Message
  import opened Folds
  import opened Model
  import opened Ownership
  import opened Content
  import opened Traffic
  import opened Registry
  import opened Accounting
  import opened Invariant
  import opened Runs

  /** registry[k] is the connection swapped in last under k as long as its own OnDisconnect has not
      run, and there is no entry otherwise, whatever older connections under k do meanwhile. */
  lemma RegistryIsLatest(s: State, k: Id)
    requires Reachable(s)
    ensures k in s.lastSwap ==>
      s.lastSwap[k] < |s.keys| && s.lastSwap[k] < |s.readers|
      && s.keys[s.lastSwap[k]] == k && !s.readers[s.lastSwap[k]].Fresh?
    ensures k in s.registry <==> k in s.lastSwap && !PastDelete(s.readers[s.lastSwap[k]])
    ensures k in s.registry ==> s.registry[k] == s.lastSwap[k]
  {
    hide Reachable;
    ReachableInv(s);
  }

  /** Count lags behind the registry by the updates still outstanding: it is exact if and only if
      these balance. */
  lemma CountIsExactIff(s: State)
    requires Reachable(s)
    ensures var (adds, subs) := (Tally(s.readers, AddsPending), Tally(s.readers, SubsPending));
      && adds >= 0 && subs >= 0
      && s.stats.connCount == |s.registry| - adds + subs
      && (s.stats.connCount == |s.registry| <==> adds == subs)
      && (s.stats.connCount < 0 <==> |s.registry| + subs < adds)
  {
    hide Reachable;
    ReachableInv(s);
    assert CountLags(s);
    TallyNonNegative(s.readers, AddsPending);
    TallyNonNegative(s.readers, SubsPending);
  }

  /** Messages that left a queue or never got out of it, and those still on their way. */
  ghost function Outstanding(s: State): int {
    s.stats.drained + Tally(s.chans, Queued) + Tally(s.pumps, Busy)
  }

  /** While nobody is inside HandleMessage, delivered + noRecip equals processed exactly when the
      messages drained or still on their way are as many as the dropped pushes plus the extra copies. */
  lemma PublicCountersAgreeIff(s: State)
    requires Reachable(s) && NobodyHandles(s)
    ensures s.stats.delivered + s.stats.noRecip + Outstanding(s) == s.stats.processed + s.stats.dropped + s.stats.extra
    ensures s.stats.delivered + s.stats.noRecip == s.stats.processed <==>
      Outstanding(s) == s.stats.dropped + s.stats.extra
  {
    hide Reachable;
    ReachableInv(s);
    CounterLaw(s);
  }

  /** For single-recipient traffic the law has no extra copies. */
  lemma SingleRecipientLaw(s: State)
    requires Reachable(s) && NobodyHandles(s) && SingleRecipients(s)
    ensures s.stats.delivered + s.stats.noRecip + Outstanding(s) == s.stats.processed + s.stats.dropped
  {
    hide Reachable;
    ReachableInv(s);
    CounterLaw(s);
    NoExtraIfSingle(s);
  }

  /** Every successful push ends in a delivery, a failed write or the drain, or is on its way;
      noRecip counts the rest, up to what is just being counted. */
  lemma PushesAndFailures(s: State)
    requires Reachable(s)
    ensures s.stats.pushes == s.stats.delivered + s.stats.writeFails + s.stats.drained
      + Tally(s.chans, Queued) + Tally(s.pumps, Unsettled)
    ensures s.stats.noRecip + Tally(s.readers, DropPending) + Tally(s.pumps, FailurePending)
      == s.stats.dropped + s.stats.zeroMatch + s.stats.writeFails
  {
    hide Reachable;
    ReachableInv(s);
  }

  /** delivered is the number of messages pushed exactly when no write has failed, nothing has been
      drained, and nothing is on its way. */
  lemma DeliveredIsPushedIff(s: State)
    requires Reachable(s)
    ensures s.stats.delivered == s.stats.pushes <==>
      s.stats.writeFails + s.stats.drained + Tally(s.chans, Queued) + Tally(s.pumps, Unsettled) == 0
  {
    hide Reachable;
    PushesAndFailures(s);
  }

  /** delivered counts the writes that have succeeded, up to those just being counted. */
  lemma DeliveredIsWritten(s: State)
    requires Reachable(s)
    ensures Tally(s.written, Writes) == s.stats.delivered + Tally(s.pumps, ReportPending)
    ensures s.stats.delivered <= Tally(s.written, Writes)
  {
    hide Reachable, MemoryOk, ContentOk, Registered;
    ReachableInv(s);
    TallyNonNegative(s.pumps, ReportPending);
  }

  /** Measurements on their way to the count: at a pump, in the latency channel, with the worker. */
  ghost function Unmeasured(s: State): int {
    s.stats.latencyQueued + WorkerHolds(s.worker) + Tally(s.pumps, RecordPending)
  }

  /** Every delivery has its latency counted, dropped at the full channel, or on its way; latencyCount
      is delivered exactly when none has been dropped and none is on its way. */
  lemma LatencyCountIsDeliveredIff(s: State)
    requires Reachable(s)
    ensures s.stats.latencyQueued <= LATENCY_CAP && Unmeasured(s) >= 0
    ensures s.stats.delivered == s.stats.latencyCount + s.stats.latencyDropped + Unmeasured(s)
    ensures s.stats.latencyCount == s.stats.delivered <==> s.stats.latencyDropped == 0 && Unmeasured(s) == 0
  {
    hide Reachable, MemoryOk, ContentOk, Registered;
    ReachableInv(s);
    TallyNonNegative(s.pumps, RecordPending);
  }

  /** No step takes a dropped measurement back. */
  lemma DropsStay(s: State, step: Step)
    requires Inv(s) && Enabled(s, step)
    ensures Next(s, step).stats.latencyDropped >= s.stats.latencyDropped
  {
    hide MemoryOk, ContentOk, BooksOk, MoveOf, PumpMoveOf, ReadEnabled, PumpEnabled, Bufs, BufFault;
    match step
    case Accept(_) =>
    case WorkerStep =>
    case ReadStep(t, ev) =>
      ReadFactsOf(s, t, ev);
    case PumpStep(c, writeOk) =>
      PumpFactsOf(s, c, writeOk);
  }

  /** Once a measurement has been dropped, latencyCount stays below delivered whatever happens. */
  lemma {:induction false} LossIsFinal(s: State, steps: seq<Step>)
    requires Reachable(s) && InRange(s) && CanRun(s, steps) && s.stats.latencyDropped > 0
    ensures Run(s, steps).stats.latencyCount < Run(s, steps).stats.delivered
    decreases |steps|
  {
    hide Reachable, Inv, Next, Enabled;
    if steps == [] {
      LatencyCountIsDeliveredIff(s);
    } else {
      ReachableInv(s);
      DropsStay(s, steps[0]);
      ReachableNext(s, steps[0]);
      LossIsFinal(Next(s, steps[0]), steps[1..]);
    }
  }

  /** Whatever sits in a queue or in a pump's hand is alive, is addressed to that connection, and
      has its recipients wiped. */
  lemma InTransit(s: State, c: nat, b: nat)
    requires Reachable(s) && c < |s.chans| && c < |s.pumps|
    requires b in s.chans[c].queue || PumpRefs(s.pumps[c], b) > 0
    ensures c < |s.keys| && b < |s.bufs| && s.bufs[b].from < |s.keys|
    ensures !s.bufs[b].freed && s.keys[c] in For(s.keys, s.bufs[b])
    ensures s.bufs[b].bytes == Zeroed(s.keys[s.bufs[b].from] + s.bufs[b].stream)
  {
    hide Reachable;
    ReachableInv(s);
    WasSent(s, c, b);
    assert BufOk(s.bufs[b], s.keys);
    TallyNonNegative(s.readers, ReadRefsTo(b));
    TallyNonNegative(s.pumps, PumpRefsTo(b));
    TallyNonNegative(s.chans, QueueRefsTo(b));
    if b in s.chans[c].queue {
      OccurrencesPositive(s.chans[c].queue, b);
      TallyMember(s.chans, c, QueueRefsTo(b));
    } else {
      TallyMember(s.pumps, c, PumpRefsTo(b));
    }
    assert CountIs(s.bufs, b, Holders(s.readers, s.pumps, s.chans, b));
  }

  lemma WasSent(s: State, c: nat, b: nat)
    requires SendsOk(s) && TailsOk(s) && c < |s.chans|
    requires b in s.chans[c].queue || PumpRefs(s.pumps[c], b) > 0
    ensures SentOk(s, c, b)
  {
    var ch := s.chans[c];
    assert TailOk(ch, s.pumps[c]);
    var from := |ch.pushed| - |ch.queue|;
    var j := if b in ch.queue then IndexIn(ch.queue, b) + from else from - 1;
    assert ch.pushed[j] == b;
    assert SentOk(s, c, ch.pushed[j]);
  }

  ghost function IndexIn(q: seq<nat>, b: nat): (i: nat)
    requires b in q
    ensures i < |q| && q[i] == b
  {
    var i: nat :| i < |q| && q[i] == b;
    i
  }

  /** A step that changes the bytes of a buffer is taken by the read loop that allocated it, while
      that loop's reference is the only one. */
  lemma WritesAreExclusive(s: State, t: nat, ev: Event, b: nat)
    requires Inv(s) && ReadEnabled(s, t, ev) && b < |s.bufs|
    requires b < |Next(s, ReadStep(t, ev)).bufs| && Next(s, ReadStep(t, ev)).bufs[b].bytes != s.bufs[b].bytes
    ensures t == s.bufs[b].from && InHand(s.readers[t]) == Some(b) && s.bufs[b].refs == 1
  {
    hide MoveOf;
    var m := MoveOf(s, t, ev);
    ReadFactsOf(s, t, ev);
    WriterIsSole(s, t, m, b);
  }

  lemma WriterIsSole(s: State, t: nat, m: ReadMove, b: nat)
    requires InRange(s) && t < |s.readers| && ReadMoveInRange(s, m) && ReadContent(s, t, m) && ReadBalanced(s, t, m)
    requires BufsOk(s) && Conserved(s) && b < |s.bufs|
    ensures Bufs(s.bufs, m.op)[b].bytes != s.bufs[b].bytes ==>
      t == s.bufs[b].from && InHand(s.readers[t]) == Some(b) && s.bufs[b].refs == 1
  {
    assert BufOk(s.bufs[b], s.keys);
    HeldByReader(s, t, b);
    assert CountIs(s.bufs, b, Holders(s.readers, s.pumps, s.chans, b));
  }

  /** Pumps change no bytes at all. */
  lemma PumpsWriteNothing(s: State, c: nat, writeOk: bool)
    requires Inv(s) && PumpEnabled(s, c)
    ensures SameBytes(s, Next(s, PumpStep(c, writeOk)))
  {
    hide MemoryOk, ContentOk, BooksOk, PumpMoveOf, Bufs;
    PumpFactsOf(s, c, writeOk);
    forall b | 0 <= b < |s.bufs| {
      PumpOpsKeepBytes(s.bufs, PumpMoveOf(s, c, writeOk).op, b);
    }
  }

  ghost predicate SameBytes(s: State, s': State) {
    |s'.bufs| == |s.bufs| && forall b :: 0 <= b < |s.bufs| ==> s'.bufs[b].bytes == s.bufs[b].bytes
  }

  lemma PumpOpsKeepBytes(bufs: seq<Buf>, op: BufOp, b: nat)
    requires OpInRange(op, |bufs|) && (op.NoOp? || op.Read? || op.Release?) && b < |bufs|
    ensures b < |Bufs(bufs, op)| && Bufs(bufs, op)[b].bytes == bufs[b].bytes
  {
  }
}
