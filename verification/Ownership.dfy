/** Reference counts: every count is the number of holders, so no step can fault on memory. */
module Ownership {
  import opened Wire
  import opened Message
  import opened Codec
  import opened Parser
  import opened Folds
  import opened Model

  /** Between Retain and a successful send, or up to the undoing Release, a loop holds a second reference. */
  predicate SecondReference(at: At) {
    at.AtLock? || at.AtTest? || at.AtSend? || at.AtUndo? || (at.AtUnlock? && !at.ok)
  }

  /** How many references to b a read loop holds. */
  function ReadRefs(r: ReadLoop, b: nat): (n: int)
    ensures n >= 0
  {
    match r
    case Handling(w, at) => if w.buf != b then 0 else if SecondReference(at) then 2 else 1
    case Filling(x, _) => if x == b then 1 else 0
    case Received(x) => if x == b then 1 else 0
    case Counting(x, _) => if x == b then 1 else 0
    case Zeroing(x, _) => if x == b then 1 else 0
    case Finishing(x) => if x == b then 1 else 0
    case _ => 0
  }

  function PumpRefs(p: Pump, b: nat): (n: int)
    ensures n >= 0
  {
    if (p.Writing? || p.Freeing? || p.DrainFreeing?) && p.buf == b then 1 else 0
  }

  ghost function ReadRefsTo(b: nat): ReadLoop -> int {
    r => ReadRefs(r, b)
  }

  ghost function PumpRefsTo(b: nat): Pump -> int {
    p => PumpRefs(p, b)
  }

  ghost function QueueRefsTo(b: nat): Chan -> int {
    (ch: Chan) => Occurrences(ch.queue, b)
  }

  /** All references to b held anywhere: by read loops, by write pumps, and in queues. */
  ghost function Holders(readers: seq<ReadLoop>, pumps: seq<Pump>, chans: seq<Chan>, b: nat): int {
    Tally(readers, ReadRefsTo(b)) + Tally(pumps, PumpRefsTo(b)) + Tally(chans, QueueRefsTo(b))
  }

  /** One buffer's count against its number of holders; a buffer that does not exist has none. */
  ghost predicate CountIs(bufs: seq<Buf>, b: nat, holders: int) {
    if b < |bufs| then bufs[b].refs == holders && (bufs[b].freed <==> holders == 0) else holders == 0
  }

  /** Conservation: refs of every buffer is the number of its holders, and it is freed exactly at zero. */
  ghost predicate Conserved(s: State) {
    forall b: nat :: CountIs(s.bufs, b, Holders(s.readers, s.pumps, s.chans, b))
  }

  function Gain(op: BufOp, newest: nat, b: nat): int {
    match op
    case Alloc(_) => if b == newest then 1 else 0
    case Retain(x) => if b == x then 1 else 0
    case _ => 0
  }

  function Loss(op: BufOp, b: nat): int {
    if (op.Release? || op.Reject?) && op.b == b then 1 else 0
  }

  /** A step hands references around correctly: for every buffer, what its thread and the
      channel it touches hold afterwards is what they held before, plus gain, minus loss; it
      works only on buffers it holds, and a fresh buffer starts with one reference. */
  ghost predicate ReadBalanced(s: State, t: nat, m: ReadMove)
    requires t < |s.readers| && m.dest < |s.chans|
  {
    && (m.op.Alloc? ==> m.op.x.refs == 1 && !m.op.x.freed)
    && (!m.op.Alloc? && !m.op.NoOp? ==> ReadRefs(s.readers[t], m.op.b) > 0)
    && forall b: nat ::
      ReadRefs(m.next, b) + Occurrences(m.chan.queue, b) + Loss(m.op, b)
      == ReadRefs(s.readers[t], b) + Occurrences(s.chans[m.dest].queue, b) + Gain(m.op, |s.bufs|, b)
  }

  ghost predicate PumpBalanced(s: State, c: nat, m: PumpMove)
    requires c < |s.pumps| && c < |s.chans|
  {
    && !m.op.Alloc?
    && (!m.op.NoOp? ==> PumpRefs(s.pumps[c], m.op.b) > 0)
    && forall b: nat ::
      PumpRefs(m.next, b) + Occurrences(m.chan.queue, b) + Loss(m.op, b)
      == PumpRefs(s.pumps[c], b) + Occurrences(s.chans[c].queue, b) + Gain(m.op, |s.bufs|, b)
  }

  lemma LifeBalance(s: State, t: nat, ev: Event)
    requires InRange(s) && ReadEnabled(s, t, ev) && !s.readers[t].Handling? && !OnFrame(s.readers[t])
    ensures ReadBalanced(s, t, LifeMove(s, t, ev))
  {
    hide ParseHeader, ReaderInRange, PumpInRange, QueueInRange;
  }

  lemma FrameBalance(s: State, t: nat, stalled: bool)
    requires InRange(s) && t < |s.readers| && OnFrame(s.readers[t])
    ensures ReadBalanced(s, t, FrameMove(s, t, stalled))
  {
    hide Verdict, Zeroed, PumpInRange, QueueInRange, ReaderInRange;
  }

  lemma RouteBalance(s: State, t: nat)
    requires InRange(s) && t < |s.readers| && OnRoute(s.readers[t])
    ensures ReadBalanced(s, t, RouteMove(s, t))
  {
    hide PumpInRange, QueueInRange;
  }

  lemma PushBalance(s: State, t: nat)
    requires InRange(s) && t < |s.readers| && OnPush(s.readers[t]) && PushMove(s, t).dest < |s.chans|
    ensures ReadBalanced(s, t, PushMove(s, t))
  {
    hide PumpInRange, QueueInRange, Occurrences;
    assert ReaderInRange(s.readers[t], |s.bufs|, |s.keys|);
    forall b: nat {
      OccurrencesAppend(s.chans[s.readers[t].at.dest].queue, s.readers[t].w.buf, b);
    }
  }

  lemma ReadBalance(s: State, t: nat, ev: Event)
    requires InRange(s) && ReadEnabled(s, t, ev) && MoveOf(s, t, ev).dest < |s.chans|
    ensures ReadBalanced(s, t, MoveOf(s, t, ev))
  {
    if OnRoute(s.readers[t]) {
      RouteBalance(s, t);
    } else if OnPush(s.readers[t]) {
      PushBalance(s, t);
    } else if OnFrame(s.readers[t]) {
      FrameBalance(s, t, ev.Stalled?);
    } else {
      LifeBalance(s, t, ev);
    }
  }

  lemma PumpBalance(s: State, c: nat, writeOk: bool)
    requires InRange(s) && PumpEnabled(s, c)
    ensures PumpBalanced(s, c, PumpMoveOf(s, c, writeOk))
  {
    hide ReaderInRange, QueueInRange, PumpInRange, Occurrences;
    if s.chans[c].queue != [] {
      forall b: nat {
        OccurrencesTail(s.chans[c].queue, b);
      }
    }
  }

  /** A buffer operation of a holder keeps counts and holders in step, without a fault. */
  lemma CountFollows(bufs: seq<Buf>, op: BufOp, b: nat, before: int, after: int)
    requires OpInRange(op, |bufs|) && CountIs(bufs, b, before)
    requires op.Alloc? ==> op.x.refs == 1 && !op.x.freed
    requires !op.Alloc? && !op.NoOp? && op.b == b ==> before > 0
    requires after + Loss(op, b) == before + Gain(op, |bufs|, b)
    ensures CountIs(Bufs(bufs, op), b, after)
  {
  }

  lemma HoldersAfter(s: State, s': State, t: nat, p: nat, d: nat, b: nat)
    requires t < |s.readers| == |s'.readers| && s'.readers == s.readers[t := s'.readers[t]]
    requires p < |s.pumps| == |s'.pumps| && s'.pumps == s.pumps[p := s'.pumps[p]]
    requires d < |s.chans| == |s'.chans| && s'.chans == s.chans[d := s'.chans[d]]
    ensures Holders(s'.readers, s'.pumps, s'.chans, b) == Holders(s.readers, s.pumps, s.chans, b)
      - ReadRefs(s.readers[t], b) + ReadRefs(s'.readers[t], b)
      - PumpRefs(s.pumps[p], b) + PumpRefs(s'.pumps[p], b)
      - Occurrences(s.chans[d].queue, b) + Occurrences(s'.chans[d].queue, b)
  {
    TallyUpdate(s.readers, t, s'.readers[t], ReadRefsTo(b));
    TallyUpdate(s.pumps, p, s'.pumps[p], PumpRefsTo(b));
    TallyUpdate(s.chans, d, s'.chans[d], QueueRefsTo(b));
  }

  lemma HeldByReader(s: State, t: nat, b: nat)
    requires t < |s.readers|
    ensures Holders(s.readers, s.pumps, s.chans, b) >= ReadRefs(s.readers[t], b)
  {
    TallyMember(s.readers, t, ReadRefsTo(b));
    TallyNonNegative(s.pumps, PumpRefsTo(b));
    TallyNonNegative(s.chans, QueueRefsTo(b));
  }

  lemma HeldByPump(s: State, c: nat, b: nat)
    requires c < |s.pumps|
    ensures Holders(s.readers, s.pumps, s.chans, b) >= PumpRefs(s.pumps[c], b)
  {
    TallyMember(s.pumps, c, PumpRefsTo(b));
    TallyNonNegative(s.readers, ReadRefsTo(b));
    TallyNonNegative(s.chans, QueueRefsTo(b));
  }

  /** Conservation survives every step of a read loop, and the step does not fault on memory. */
  lemma ReadConserves(s: State, t: nat, m: ReadMove)
    requires InRange(s) && t < |s.readers| && ReadMoveInRange(s, m) && Conserved(s)
    requires ReadBalanced(s, t, m) && (s.readers[t].Starting? ==> s.pumps[t].Unstarted?)
    ensures Conserved(ApplyRead(s, t, m)) && BufFault(s.bufs, m.op) == NoFault
  {
    var s' := ApplyRead(s, t, m);
    forall b: nat ensures CountIs(s'.bufs, b, Holders(s'.readers, s'.pumps, s'.chans, b)) {
      HoldersAfter(s, s', t, t, m.dest, b);
      HeldByReader(s, t, b);
      CountFollows(s.bufs, m.op, b,
        Holders(s.readers, s.pumps, s.chans, b), Holders(s'.readers, s'.pumps, s'.chans, b));
    }
    if !m.op.Alloc? && !m.op.NoOp? {
      HeldByReader(s, t, m.op.b);
      assert CountIs(s.bufs, m.op.b, Holders(s.readers, s.pumps, s.chans, m.op.b));
    }
  }

  lemma PumpConserves(s: State, c: nat, m: PumpMove)
    requires InRange(s) && c < |s.pumps| && PumpMoveInRange(s, m) && Conserved(s) && PumpBalanced(s, c, m)
    ensures Conserved(ApplyPump(s, c, m)) && BufFault(s.bufs, m.op) == NoFault
  {
    var s' := ApplyPump(s, c, m);
    forall b: nat ensures CountIs(s'.bufs, b, Holders(s'.readers, s'.pumps, s'.chans, b)) {
      HoldersAfter(s, s', c, c, c, b);
      HeldByPump(s, c, b);
      CountFollows(s.bufs, m.op, b,
        Holders(s.readers, s.pumps, s.chans, b), Holders(s'.readers, s'.pumps, s'.chans, b));
    }
    if !m.op.NoOp? {
      HeldByPump(s, c, m.op.b);
      assert CountIs(s.bufs, m.op.b, Holders(s.readers, s.pumps, s.chans, m.op.b));
    }
  }

  lemma AcceptConserves(s: State, key: Id)
    requires InRange(s) && Conserved(s)
    ensures Conserved(ApplyAccept(s, key))
  {
    var s' := ApplyAccept(s, key);
    forall b: nat ensures CountIs(s'.bufs, b, Holders(s'.readers, s'.pumps, s'.chans, b)) {
      TallyAppend(s.readers, Fresh, ReadRefsTo(b));
      TallyAppend(s.pumps, Unstarted, PumpRefsTo(b));
      TallyAppend(s.chans, Chan([], false, false, 0, false, []), QueueRefsTo(b));
      assert CountIs(s.bufs, b, Holders(s.readers, s.pumps, s.chans, b));
    }
  }
}
