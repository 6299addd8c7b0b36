/** Closing down: a closed connection takes nothing new, its pump ends, and nobody deadlocks. */
module Liveness {
  import opened Folds
  import opened Model
  import opened Locking
  import opened Invariant

  /** An upper bound on the steps a pump still takes once its channel is closed. */
  function Remaining(p: Pump, queued: nat): nat {
    var perMessage := 12;
    match p
    case Stopped => 0
    case Draining => perMessage * queued + 1
    case Recv => perMessage * queued + 1
    case DrainFreeing(_) => perMessage * queued + 2
    case PumpClosing(Unlocking) => perMessage * queued + 2
    case PumpClosing(ClosingChan) => perMessage * queued + 3
    case PumpClosing(Marking) => perMessage * queued + 4
    case PumpClosing(Testing) => perMessage * queued + 5
    case PumpClosing(Waiting) => perMessage * queued + 6
    case PumpClosing(Locking) => perMessage * queued + 7
    case Recording => perMessage * queued + 2
    case Reporting(_) => perMessage * queued + 8
    case Freeing(_, _) => perMessage * queued + 9
    case Writing(_) => perMessage * queued + 10
    case Unstarted => perMessage * queued + 11
  }

  /** A channel moves on from closed to closed, without new sends. */
  predicate StaysClosed(ch: Chan, ch': Chan) {
    ch'.isClosed && ch'.pushed == ch.pushed && |ch'.queue| <= |ch.queue|
  }

  lemma ClosedUnderRead(s: State, t: nat, m: ReadMove, c: nat)
    requires InRange(s) && t < |s.readers| && ReadFacts(s, t, m) && ConnsOk(s)
    requires c < |s.chans| && s.chans[c].isClosed
    ensures var s' := ApplyRead(s, t, m);
      c < |s'.chans| && StaysClosed(s.chans[c], s'.chans[c])
      && s'.chans[c].queue == s.chans[c].queue && s'.pumps[c] == s.pumps[c]
  {
    hide ReaderInRange, PumpInRange, QueueInRange, BufFault, RegistryAfter, AcceptedAfter, Bufs;
    assert ConnOk(s.chans[c], s.readers[c], s.pumps[c], s.cap);
  }

  lemma ClosedUnderPump(s: State, p: nat, m: PumpMove, c: nat)
    requires InRange(s) && p < |s.pumps| && PumpFacts(s, p, m)
    requires c < |s.chans| && s.chans[c].isClosed
    ensures var s' := ApplyPump(s, p, m); c < |s'.chans| && StaysClosed(s.chans[c], s'.chans[c])
    ensures p != c ==> ApplyPump(s, p, m).pumps[c] == s.pumps[c] && ApplyPump(s, p, m).chans[c] == s.chans[c]
  {
  }

  lemma PumpProgress(s: State, c: nat, writeOk: bool)
    requires InRange(s) && PumpEnabled(s, c)
    ensures var m := PumpMoveOf(s, c, writeOk);
      Remaining(m.next, |m.chan.queue|) < Remaining(s.pumps[c], |s.chans[c].queue|)
  {
  }

  /** From s to s', nothing has been pushed to c, and its pump is closer to its end by n. */
  predicate TowardsEnd(s: State, s': State, c: nat, n: nat) {
    && c < |s.chans| && c < |s.pumps| && c < |s'.chans| && c < |s'.pumps|
    && StaysClosed(s.chans[c], s'.chans[c])
    && Remaining(s'.pumps[c], |s'.chans[c].queue|) + n <= Remaining(s.pumps[c], |s.chans[c].queue|)
  }

  lemma ReadTowardsEnd(s: State, t: nat, m: ReadMove, c: nat)
    requires InRange(s) && t < |s.readers| && ReadFacts(s, t, m) && ConnsOk(s)
    requires c < |s.chans| && s.chans[c].isClosed
    ensures TowardsEnd(s, ApplyRead(s, t, m), c, 0)
  {
    hide ApplyRead, ReadFacts, ConnsOk, Remaining;
    ClosedUnderRead(s, t, m, c);
  }

  lemma PumpTowardsEnd(s: State, p: nat, m: PumpMove, c: nat)
    requires InRange(s) && p < |s.pumps| && PumpFacts(s, p, m)
    requires c < |s.chans| && s.chans[c].isClosed
    requires Remaining(m.next, |m.chan.queue|) < Remaining(s.pumps[p], |s.chans[p].queue|)
    ensures TowardsEnd(s, ApplyPump(s, p, m), c, if p == c then 1 else 0)
  {
    hide PumpFacts, Remaining, Bufs, BufFault;
    ClosedUnderPump(s, p, m, c);
  }

  /** After Close, SafePush adds nothing to the channel, and each step of the pump brings it
      closer to its end; no other step sets it back. */
  lemma StepTowardsEnd(s: State, step: Step, c: nat)
    requires Inv(s) && Enabled(s, step) && c < |s.chans| && s.chans[c].isClosed
    ensures TowardsEnd(s, Next(s, step), c, if step.PumpStep? && step.c == c then 1 else 0)
  {
    hide ContentOk, BooksOk, MoveOf, PumpMoveOf, Remaining, ApplyRead, ApplyPump, ReadFacts, PumpFacts, ConnsOk;
    match step
    case Accept(_) =>
    case WorkerStep =>
    case ReadStep(t, ev) =>
      ReadFactsOf(s, t, ev);
      ReadTowardsEnd(s, t, MoveOf(s, t, ev), c);
    case PumpStep(p, writeOk) =>
      PumpFactsOf(s, p, writeOk);
      PumpProgress(s, p, writeOk);
      PumpTowardsEnd(s, p, PumpMoveOf(s, p, writeOk), c);
  }

  function PumpSteps(steps: seq<Step>, c: nat): nat {
    if steps == [] then 0 else (if steps[0].PumpStep? && steps[0].c == c then 1 else 0) + PumpSteps(steps[1..], c)
  }

  /** In any run from a state where c is closed, nothing more is pushed to c, and its pump takes
      no more steps than the bound says, whatever everybody else does. */
  lemma {:induction false} PumpEnds(s: State, steps: seq<Step>, c: nat)
    requires Inv(s) && CanRun(s, steps) && c < |s.chans| && s.chans[c].isClosed
    ensures c < |Run(s, steps).chans| && StaysClosed(s.chans[c], Run(s, steps).chans[c])
    ensures PumpSteps(steps, c) <= Remaining(s.pumps[c], |s.chans[c].queue|)
    decreases |steps|
  {
    hide MemoryOk, ContentOk, BooksOk, Next, Enabled, Remaining;
    if steps != [] {
      StepTowardsEnd(s, steps[0], c);
      StepKeepsInv(s, steps[0]);
      PumpEnds(Next(s, steps[0]), steps[1..], c);
    }
  }

  // --- Nobody waits for a lock that nobody will release ---

  /** A goroutine that holds connection c's lock, or has announced itself for it, can take its next step. */
  ghost predicate HolderCanStep(s: State, c: nat)
    requires InRange(s)
  {
    || (exists t :: 0 <= t < |s.readers| && ReadLocks(s.readers[t], c) > 0 && ReadEnabled(s, t, Go))
    || (c < |s.readers| && ReadLoopLocks(s.readers[c]) && ReadEnabled(s, c, Go))
    || (c < |s.pumps| && PumpLocks(s.pumps[c]) && PumpEnabled(s, c))
  }

  /** A lock that is held or announced has somebody inside who can step: readers inside never
      wait, and a pending writer waits for them only. */
  lemma TakenLockMoves(s: State, c: nat)
    requires InRange(s) && Locked(s) && c < |s.chans| && (s.chans[c].writer || s.chans[c].rlocks != 0)
    ensures HolderCanStep(s, c)
  {
    assert ConnOk(s.chans[c], s.readers[c], s.pumps[c], s.cap);
    if s.chans[c].rlocks != 0 {
      TallyNonNegative(s.readers, ReadLocksOn(c));
      var t := TallySource(s.readers, ReadLocksOn(c));
      assert ReadLocks(s.readers[t], c) > 0 && ReadEnabled(s, t, Go);
    }
  }

  /** The read loop waits for connection d's lock. */
  predicate WaitsFor(r: ReadLoop, own: nat, d: nat) {
    (r.Handling? && r.at == AtLock(d)) || ((r == Closing(Locking) || r == Closing(Waiting)) && d == own)
  }

  /** Deadlock freedom, read loops: one that has not ended can step, or waits for a lock whose
      holder can. */
  lemma ReadLoopNeverStuck(s: State, t: nat)
    requires Reachable(s) && t < |s.readers| && !s.readers[t].Ended?
    ensures InRange(s)
    ensures (exists ev :: ReadEnabled(s, t, ev))
      || exists d :: 0 <= d < |s.chans| && WaitsFor(s.readers[t], t, d) && HolderCanStep(s, d)
  {
    hide Reachable, ReadEnabled, WaitsFor, HolderCanStep;
    ReachableInv(s);
    LoopNeverStuck(s, t);
  }

  lemma LoopNeverStuck(s: State, t: nat)
    requires InRange(s) && Locked(s) && t < |s.readers| && !s.readers[t].Ended?
    ensures (exists ev :: ReadEnabled(s, t, ev))
      || exists d :: 0 <= d < |s.chans| && WaitsFor(s.readers[t], t, d) && HolderCanStep(s, d)
  {
    var r := s.readers[t];
    assert ReaderInRange(r, |s.bufs|, |s.keys|);
    if r.Idle? {
      assert ReadEnabled(s, t, NetError);
    } else if !ReadEnabled(s, t, Go) {
      var d := if r.Handling? then r.at.dest else t;
      TakenLockMoves(s, d);
      assert WaitsFor(r, t, d) && HolderCanStep(s, d);
    }
  }

  /** Deadlock freedom, pumps: a started pump that has not stopped can step, or waits for a
      message on a channel nobody has begun to close, or for somebody who can step. */
  lemma PumpNeverStuck(s: State, c: nat)
    requires Reachable(s) && c < |s.pumps|
    requires !s.pumps[c].Unstarted? && !s.pumps[c].Stopped?
    ensures InRange(s)
    ensures PumpEnabled(s, c) || HolderCanStep(s, c) || (s.pumps[c].Recv? && !s.chans[c].isClosed)
  {
    hide Reachable, PumpEnabled, HolderCanStep;
    ReachableInv(s);
    StartedPumpNeverStuck(s, c);
  }

  lemma StartedPumpNeverStuck(s: State, c: nat)
    requires InRange(s) && Locked(s) && c < |s.pumps| && !s.pumps[c].Unstarted? && !s.pumps[c].Stopped?
    ensures PumpEnabled(s, c) || HolderCanStep(s, c) || (s.pumps[c].Recv? && !s.chans[c].isClosed)
  {
    if !PumpEnabled(s, c) {
      assert ConnOk(s.chans[c], s.readers[c], s.pumps[c], s.cap);
      if s.pumps[c].PumpClosing? {
        TakenLockMoves(s, c);
      }
    }
  }
}
