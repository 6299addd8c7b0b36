/** The RWMutex around each connector's channel: no send on a closed channel, no second close. */
module Locking {
  import opened Wire
  import opened Message
  import opened Codec
  import opened Parser
  import opened Folds
  import opened Model

  /** Whether a read loop is inside SafePush's read-locked section on connection c. */
  function ReadLocks(r: ReadLoop, c: nat): (n: int)
    ensures 0 <= n <= 1
  {
    if r.Handling? && (r.at.AtTest? || r.at.AtSend? || r.at.AtUnlock?) && r.at.dest == c then 1 else 0
  }

  ghost function ReadLocksOn(c: nat): ReadLoop -> int {
    (r: ReadLoop) => ReadLocks(r, c)
  }

  /** The RWMutex's reader count is the number of read loops inside SafePush on that connection. */
  ghost predicate LocksCounted(s: State) {
    forall c :: 0 <= c < |s.chans| ==> s.chans[c].rlocks == Tally(s.readers, ReadLocksOn(c))
  }

  predicate ReadLoopIn(r: ReadLoop, phase: Phase) { r == Closing(phase) }

  predicate PumpIn(p: Pump, phase: Phase) { p == PumpClosing(phase) }

  /** In Close, with the lock announced or held. */
  predicate ReadLoopLocks(r: ReadLoop) { r.Closing? && r.phase != Locking }

  predicate PumpLocks(p: Pump) { p.PumpClosing? && p.phase != Locking }

  /** In Close, with the lock held. */
  predicate Exclusive(r: ReadLoop, p: Pump) {
    (ReadLoopLocks(r) && r.phase != Waiting) || (PumpLocks(p) && p.phase != Waiting)
  }

  predicate BeforeLoop(r: ReadLoop) { r.Fresh? || r.AddPending? || r.Starting? }

  /** What holds of one connection's channel, lock and two goroutines in every state. */
  predicate ConnOk(ch: Chan, r: ReadLoop, p: Pump, cap: nat) {
    && (BeforeLoop(r) <==> p.Unstarted?)
    && (BeforeLoop(r) ==> !ch.isClosed)
    && (ch.writer <==> ReadLoopLocks(r) || PumpLocks(p))
    && !(ReadLoopLocks(r) && PumpLocks(p))
    && (Exclusive(r, p) ==> ch.rlocks == 0)
    && (ch.chanClosed ==> ch.isClosed)
    && (ch.isClosed && !ch.chanClosed <==> ReadLoopIn(r, ClosingChan) || PumpIn(p, ClosingChan))
    && (ReadLoopIn(r, Marking) || PumpIn(p, Marking) ==> !ch.isClosed)
    && (ReadLoopIn(r, Unlocking) || PumpIn(p, Unlocking) || r.Ended? ==> ch.chanClosed)
    && (p.Draining? || p.DrainFreeing? || p.Stopped? ==> ch.chanClosed)
    && (p.Stopped? ==> ch.queue == [])
    && |ch.queue| <= cap
  }

  ghost predicate ConnsOk(s: State) {
    && |s.chans| == |s.readers| == |s.pumps|
    && forall c :: 0 <= c < |s.chans| ==> ConnOk(s.chans[c], s.readers[c], s.pumps[c], s.cap)
  }

  /** Whoever is about to send has seen the channel open and it still is. */
  ghost predicate SendersSafe(s: State) {
    forall t :: 0 <= t < |s.readers| && s.readers[t].Handling? && s.readers[t].at.AtSend? ==>
      s.readers[t].at.dest < |s.chans| && !s.chans[s.readers[t].at.dest].isClosed
  }

  ghost predicate Locked(s: State) {
    LocksCounted(s) && ConnsOk(s) && SendersSafe(s)
  }

  /** What a read loop's step may do to locks and channels. */
  ghost predicate ReadLockMove(s: State, t: nat, m: ReadMove)
    requires t < |s.readers| && t < |s.chans| && m.dest < |s.chans|
  {
    var (r, ch) := (s.readers[t], s.chans[m.dest]);
    && (forall c: nat ::
          ReadLocks(m.next, c) == ReadLocks(r, c) + if c == m.dest then m.chan.rlocks - ch.rlocks else 0)
    && (m.chan.rlocks > ch.rlocks ==> !ch.writer)
    && (m.chan.queue != ch.queue ==> !ch.isClosed && |m.chan.queue| <= s.cap)
    && (m.next.Handling? && m.next.at.AtSend? ==> m.next.at.dest < |s.chans| && !s.chans[m.next.at.dest].isClosed)
    && (BeforeLoop(m.next) <==> BeforeLoop(r) && !r.Starting?)
    && (if r.Closing? then
          && m.dest == t && CanClose(ch, r.phase)
          && var (ch', next) := CloseStep(ch, r.phase);
             m.chan == ch' && m.next == if next.Some? then Closing(next.value) else Ended
        else
          && m.chan.(rlocks := ch.rlocks, queue := ch.queue, pushed := ch.pushed) == ch
          && !m.next.Ended? && (m.next.Closing? ==> m.next.phase == Locking))
  }

  lemma LifeLockMove(s: State, t: nat, ev: Event)
    requires InRange(s) && ReadEnabled(s, t, ev) && !s.readers[t].Handling? && !OnFrame(s.readers[t])
    ensures ReadLockMove(s, t, LifeMove(s, t, ev)) && LifeMove(s, t, ev).fault == CloseFaultOf(s, t)
  {
    hide ParseHeader, ReaderInRange, PumpInRange, QueueInRange;
    if s.readers[t].Closing? {
      CloseLockMove(s, t, ev);
    }
  }

  lemma CloseLockMove(s: State, t: nat, ev: Event)
    requires InRange(s) && ReadEnabled(s, t, ev) && s.readers[t].Closing?
    ensures ReadLockMove(s, t, LifeMove(s, t, ev)) && LifeMove(s, t, ev).fault == CloseFaultOf(s, t)
  {
    hide ReaderInRange, PumpInRange, QueueInRange;
  }

  function CloseFaultOf(s: State, t: nat): Fault
    requires t < |s.readers| && t < |s.chans|
  {
    if s.readers[t].Closing? then CloseFault(s.chans[t], s.readers[t].phase) else NoFault
  }

  lemma FrameLockMove(s: State, t: nat, stalled: bool)
    requires InRange(s) && t < |s.readers| && OnFrame(s.readers[t])
    ensures ReadLockMove(s, t, FrameMove(s, t, stalled)) && FrameMove(s, t, stalled).fault == NoFault
  {
    hide PumpInRange, QueueInRange, Verdict, Zeroed;
  }

  lemma RouteLockMove(s: State, t: nat)
    requires InRange(s) && t < |s.readers| && OnRoute(s.readers[t])
    ensures ReadLockMove(s, t, RouteMove(s, t)) && RouteMove(s, t).fault == NoFault
  {
  }

  lemma PushLockMove(s: State, t: nat)
    requires InRange(s) && ReadEnabled(s, t, Go) && OnPush(s.readers[t]) && SendersSafe(s) && ConnsOk(s)
    requires PushMove(s, t).dest < |s.chans|
    ensures ReadLockMove(s, t, PushMove(s, t)) && PushMove(s, t).fault == NoFault
  {
    hide PushMove, ReadLockMove, ConnOk, PumpInRange, QueueInRange;
    assert ReaderInRange(s.readers[t], |s.bufs|, |s.keys|);
    var d := s.readers[t].at.dest;
    assert ConnOk(s.chans[d], s.readers[d], s.pumps[d], s.cap);
    OpenOrShut(s.chans[d], s.readers[d], s.pumps[d], s.cap);
    PushLocks(s, t);
  }

  lemma OpenOrShut(ch: Chan, r: ReadLoop, p: Pump, cap: nat)
    requires ConnOk(ch, r, p, cap)
    ensures (ch.chanClosed ==> ch.isClosed) && |ch.queue| <= cap
  {
  }

  lemma PushLocks(s: State, t: nat)
    requires InRange(s) && ReadEnabled(s, t, Go) && OnPush(s.readers[t]) && PushMove(s, t).dest < |s.chans|
    requires s.readers[t].at.dest < |s.chans|
    requires s.readers[t].at.AtSend? ==> !s.chans[s.readers[t].at.dest].isClosed
    requires s.chans[s.readers[t].at.dest].chanClosed ==> s.chans[s.readers[t].at.dest].isClosed
    ensures ReadLockMove(s, t, PushMove(s, t)) && PushMove(s, t).fault == NoFault
  {
    hide ReaderInRange, PumpInRange, QueueInRange;
  }

  /** Every step of a read loop respects the locks and runs into no channel fault. */
  lemma ReadLockMoveOf(s: State, t: nat, ev: Event)
    requires InRange(s) && ReadEnabled(s, t, ev) && SendersSafe(s) && ConnsOk(s) && MoveOf(s, t, ev).dest < |s.chans|
    ensures ReadLockMove(s, t, MoveOf(s, t, ev)) && MoveOf(s, t, ev).fault == NoFault
  {
    if OnRoute(s.readers[t]) {
      RouteLockMove(s, t);
    } else if OnPush(s.readers[t]) {
      PushLockMove(s, t);
    } else if OnFrame(s.readers[t]) {
      FrameLockMove(s, t, ev.Stalled?);
    } else {
      LifeLockMove(s, t, ev);
      NoSecondClose(s, t);
    }
  }

  lemma LocksAfterRead(s: State, t: nat, m: ReadMove)
    requires InRange(s) && t < |s.readers| && ReadMoveInRange(s, m) && LocksCounted(s) && ReadLockMove(s, t, m)
    ensures LocksCounted(ApplyRead(s, t, m))
  {
    hide ReaderInRange, PumpInRange, QueueInRange, Bufs, BufFault, RegistryAfter, AcceptedAfter;
    var s' := ApplyRead(s, t, m);
    forall c | 0 <= c < |s'.chans| ensures s'.chans[c].rlocks == Tally(s'.readers, ReadLocksOn(c)) {
      TallyUpdate(s.readers, t, m.next, ReadLocksOn(c));
      assert s.chans[c].rlocks == Tally(s.readers, ReadLocksOn(c));
    }
  }

  lemma LockHolderCounted(s: State, t: nat, c: nat)
    requires t < |s.readers| && c < |s.chans| && LocksCounted(s)
    ensures s.chans[c].rlocks >= ReadLocks(s.readers[t], c)
  {
    TallyMember(s.readers, t, ReadLocksOn(c));
  }

  /** The acting loop's own connection, by what its step does there. */
  lemma OwnConn(s: State, t: nat, m: ReadMove, ch: Chan)
    requires t < |s.readers| == |s.chans| && t < |s.pumps| && m.dest < |s.chans| && ReadLockMove(s, t, m)
    requires ConnOk(s.chans[t], s.readers[t], s.pumps[t], s.cap)
    requires s.chans[m.dest].rlocks >= ReadLocks(s.readers[t], m.dest)
    requires ch == if m.dest == t then m.chan else s.chans[t]
    ensures ConnOk(ch, m.next, if s.readers[t].Starting? then Recv else s.pumps[t], s.cap)
  {
  }

  /** Another connection that the acting loop pushes to. */
  lemma OtherConn(s: State, t: nat, m: ReadMove)
    requires t < |s.readers| == |s.chans| == |s.pumps| && m.dest < |s.chans| && ReadLockMove(s, t, m) && m.dest != t
    requires ConnOk(s.chans[m.dest], s.readers[m.dest], s.pumps[m.dest], s.cap)
    requires s.chans[m.dest].rlocks >= ReadLocks(s.readers[t], m.dest)
    ensures ConnOk(m.chan, s.readers[m.dest], s.pumps[m.dest], s.cap)
  {
  }

  lemma ConnsAfterRead(s: State, t: nat, m: ReadMove)
    requires InRange(s) && t < |s.readers| && ReadMoveInRange(s, m) && Locked(s) && ReadLockMove(s, t, m)
    ensures ConnsOk(ApplyRead(s, t, m))
  {
    hide ReaderInRange, PumpInRange, QueueInRange, Bufs, BufFault, RegistryAfter, AcceptedAfter, ConnOk, ReadLockMove;
    var s' := ApplyRead(s, t, m);
    LockHolderCounted(s, t, m.dest);
    forall c | 0 <= c < |s'.chans| ensures ConnOk(s'.chans[c], s'.readers[c], s'.pumps[c], s'.cap) {
      assert ConnOk(s.chans[c], s.readers[c], s.pumps[c], s.cap);
      if c == t {
        OwnConn(s, t, m, s'.chans[t]);
      } else if c == m.dest {
        OtherConn(s, t, m);
      }
    }
  }

  /** While somebody is about to send on c, its reader count is positive. */
  lemma SenderCounted(s: State, t: nat)
    requires t < |s.readers| && LocksCounted(s)
    requires s.readers[t].Handling? && s.readers[t].at.AtSend? && s.readers[t].at.dest < |s.chans|
    ensures s.chans[s.readers[t].at.dest].rlocks > 0
  {
    LockHolderCounted(s, t, s.readers[t].at.dest);
  }

  lemma SendersAfterRead(s: State, t: nat, m: ReadMove)
    requires InRange(s) && t < |s.readers| && ReadMoveInRange(s, m) && Locked(s) && ReadLockMove(s, t, m)
    ensures SendersSafe(ApplyRead(s, t, m))
  {
    hide ReaderInRange, PumpInRange, QueueInRange, Bufs, BufFault, RegistryAfter, AcceptedAfter;
    var s' := ApplyRead(s, t, m);
    assert ConnOk(s.chans[t], s.readers[t], s.pumps[t], s.cap);
    forall u | 0 <= u < |s'.readers| && s'.readers[u].Handling? && s'.readers[u].at.AtSend?
      ensures s'.readers[u].at.dest < |s'.chans| && !s'.chans[s'.readers[u].at.dest].isClosed
    {
      if u != t {
        SenderCounted(s, u);
      }
    }
  }

  lemma ReadKeepsLocked(s: State, t: nat, m: ReadMove)
    requires InRange(s) && t < |s.readers| && ReadMoveInRange(s, m) && Locked(s) && ReadLockMove(s, t, m)
    ensures Locked(ApplyRead(s, t, m))
  {
    LocksAfterRead(s, t, m);
    ConnsAfterRead(s, t, m);
    SendersAfterRead(s, t, m);
  }

  ghost predicate PumpLockMove(s: State, c: nat, m: PumpMove)
    requires c < |s.pumps| && c < |s.chans|
  {
    var (p, ch) := (s.pumps[c], s.chans[c]);
    && !p.Unstarted? && !p.Stopped? && !m.next.Unstarted?
    && (if p.PumpClosing? then
          && CanClose(ch, p.phase)
          && var (ch', next) := CloseStep(ch, p.phase);
             m.chan == ch' && m.next == if next.Some? then PumpClosing(next.value) else Draining
        else
          && m.chan.(queue := ch.queue) == ch && |m.chan.queue| <= |ch.queue|
          && (m.next.PumpClosing? ==> m.next.phase == Locking)
          && (m.next.Draining? || m.next.DrainFreeing? ==> p.Draining? || p.DrainFreeing?)
          && (m.next.Stopped? ==> ch.queue == [] && ch.chanClosed))
  }

  lemma PumpLockMoveOf(s: State, c: nat, writeOk: bool)
    requires InRange(s) && PumpEnabled(s, c) && ConnsOk(s)
    ensures var m := PumpMoveOf(s, c, writeOk);
      && PumpLockMove(s, c, m)
      && m.fault == NoFault
  {
    NoSecondClose(s, c);
  }

  lemma OwnPump(s: State, c: nat, m: PumpMove)
    requires c < |s.pumps| == |s.chans| == |s.readers| && PumpLockMove(s, c, m)
    requires ConnOk(s.chans[c], s.readers[c], s.pumps[c], s.cap)
    ensures ConnOk(m.chan, s.readers[c], m.next, s.cap) && m.chan.rlocks == s.chans[c].rlocks
    ensures s.chans[c].rlocks > 0 ==> m.chan.isClosed == s.chans[c].isClosed
  {
  }

  lemma PumpKeepsLocked(s: State, c: nat, m: PumpMove)
    requires InRange(s) && c < |s.pumps| && PumpMoveInRange(s, m) && Locked(s) && PumpLockMove(s, c, m)
    ensures Locked(ApplyPump(s, c, m))
  {
    hide PumpInRange, QueueInRange, Bufs, BufFault, ConnOk, PumpLockMove;
    var s' := ApplyPump(s, c, m);
    assert ConnOk(s.chans[c], s.readers[c], s.pumps[c], s.cap);
    OwnPump(s, c, m);
    forall d | 0 <= d < |s'.chans| ensures ConnOk(s'.chans[d], s'.readers[d], s'.pumps[d], s'.cap) {
      assert ConnOk(s.chans[d], s.readers[d], s.pumps[d], s.cap);
    }
    forall u | 0 <= u < |s'.readers| && s'.readers[u].Handling? && s'.readers[u].at.AtSend?
      ensures s'.readers[u].at.dest < |s'.chans| && !s'.chans[s'.readers[u].at.dest].isClosed
    {
      SenderCounted(s, u);
    }
  }

  /** Nobody is inside SafePush on a connection that does not exist yet. */
  lemma NobodyInside(s: State)
    requires InRange(s)
    ensures Tally(s.readers, ReadLocksOn(|s.chans|)) == 0
  {
    forall i | 0 <= i < |s.readers| ensures ReadLocksOn(|s.chans|)(s.readers[i]) == 0 {
      assert ReaderInRange(s.readers[i], |s.bufs|, |s.keys|);
    }
    TallyZero(s.readers, ReadLocksOn(|s.chans|));
  }

  lemma AcceptKeepsLocked(s: State, key: Id)
    requires InRange(s) && Locked(s)
    ensures Locked(ApplyAccept(s, key))
  {
    hide InRange, ReadLocks, ConnOk;
    var s' := ApplyAccept(s, key);
    NobodyInside(s);
    forall c | 0 <= c < |s'.chans| ensures s'.chans[c].rlocks == Tally(s'.readers, ReadLocksOn(c)) {
      TallyAppend(s.readers, Fresh, ReadLocksOn(c));
      FreshInside(c);
    }
    FreshConn(s.cap);
  }

  lemma FreshInside(c: nat)
    ensures ReadLocksOn(c)(Fresh) == 0
  {
  }

  lemma FreshConn(cap: nat)
    ensures ConnOk(Chan([], false, false, 0, false, []), Fresh, Unstarted, cap)
  {
  }

  /** Neither goroutine of a connection ever closes a channel that is closed already. */
  lemma NoSecondClose(s: State, c: nat)
    requires c < |s.chans| && ConnsOk(s)
    ensures s.readers[c].Closing? ==> CloseFault(s.chans[c], s.readers[c].phase) == NoFault
    ensures s.pumps[c].PumpClosing? ==> CloseFault(s.chans[c], s.pumps[c].phase) == NoFault
  {
    assert ConnOk(s.chans[c], s.readers[c], s.pumps[c], s.cap);
  }
}
