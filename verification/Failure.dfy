/** A failed write is the last one: the pump closes its connector, drains its queue and stops. */
module Failure {
  import opened Wrappers
  import opened Model
  import opened Locking
  import opened Invariant
  import opened Runs
  import opened Departure
  import opened Lifecycle

  // --- In every run ---

  /** The pump's latest write has failed. */
  predicate Failed(p: Pump) {
    || (p.Freeing? && !p.ok) || (p.Reporting? && !p.ok)
    || p.PumpClosing? || p.Draining? || p.DrainFreeing? || p.Stopped?
  }

  lemma WriteFails(s: State, c: nat, b: nat)
    requires InRange(s) && c < |s.pumps| && s.pumps[c] == Writing(b) && PumpEnabled(s, c)
    ensures var s' := Next(s, PumpStep(c, false));
      s'.pumps == s.pumps[c := Freeing(b, false)] && s'.written == s.written
  {
  }

  /** c's pump has failed and what it has written is ds. */
  predicate FailedWith(s: State, c: nat, ds: seq<Delivery>) {
    c < |s.pumps| && c < |s.written| && Failed(s.pumps[c]) && s.written[c] == ds
  }

  lemma FailedUnderRead(s: State, t: nat, ev: Event, c: nat, ds: seq<Delivery>)
    requires InRange(s) && ReadEnabled(s, t, ev) && ConnsOk(s) && FailedWith(s, c, ds)
    ensures FailedWith(Next(s, ReadStep(t, ev)), c, ds)
  {
    hide MoveOf, Bufs, BufFault, RegistryAfter, AcceptedAfter;
    assert ConnOk(s.chans[t], s.readers[t], s.pumps[t], s.cap);
  }

  lemma FailedUnderPump(s: State, d: nat, writeOk: bool, c: nat, ds: seq<Delivery>)
    requires InRange(s) && PumpEnabled(s, d) && FailedWith(s, c, ds)
    ensures FailedWith(Next(s, PumpStep(d, writeOk)), c, ds)
  {
  }

  /** No step brings a failed pump back or makes it write. */
  lemma StepKeepsFailed(s: State, step: Step, c: nat, ds: seq<Delivery>)
    requires Inv(s) && Enabled(s, step) && FailedWith(s, c, ds)
    ensures FailedWith(Next(s, step), c, ds)
  {
    hide ContentOk, BooksOk, MoveOf, PumpMoveOf, ReadEnabled, PumpEnabled, ApplyRead, ApplyPump, ConnsOk;
    match step
    case Accept(_) =>
    case WorkerStep =>
    case ReadStep(t, ev) =>
      FailedUnderRead(s, t, ev, c, ds);
    case PumpStep(d, writeOk) =>
      FailedUnderPump(s, d, writeOk, c, ds);
  }

  lemma {:induction false} RunKeepsFailed(s: State, steps: seq<Step>, c: nat, ds: seq<Delivery>)
    requires Inv(s) && CanRun(s, steps) && FailedWith(s, c, ds)
    ensures FailedWith(Run(s, steps), c, ds)
    decreases |steps|
  {
    hide MemoryOk, ContentOk, BooksOk, Next, Enabled, Failed;
    if steps != [] {
      StepKeepsFailed(s, steps[0], c, ds);
      StepKeepsInv(s, steps[0]);
      RunKeepsFailed(Next(s, steps[0]), steps[1..], c, ds);
    }
  }

  /** After a write on c has failed, nothing is ever written on c again. */
  lemma NothingAfterFailure(s: State, c: nat, steps: seq<Step>)
    requires Reachable(s) && InRange(s) && c < |s.pumps| && s.pumps[c].Writing?
    requires CanRun(s, [PumpStep(c, false)] + steps)
    ensures FailedWith(Run(s, [PumpStep(c, false)] + steps), c, s.written[c])
  {
    hide Reachable, MemoryOk, ContentOk, BooksOk, Next, PumpEnabled;
    var first := PumpStep(c, false);
    ReachableInv(s);
    WriteFails(s, c, s.pumps[c].buf);
    StepKeepsInv(s, first);
    assert ([first] + steps)[0] == first && ([first] + steps)[1..] == steps;
    RunKeepsFailed(Next(s, first), steps, c, s.written[c]);
  }

  // --- By its own steps ---

  lemma FreeFailedStep(s: State, c: nat, b: nat)
    requires InRange(s) && c < |s.pumps| && s.pumps[c] == Freeing(b, false) && b < |s.bufs|
    ensures Does(s, c, ViewOf(s, c).(p := Reporting(false)))
  {
  }

  lemma ReportFailureStep(s: State, c: nat)
    requires InRange(s) && c < |s.pumps| && s.pumps[c] == Reporting(false)
    ensures Does(s, c, ViewOf(s, c).(
      p := PumpClosing(Locking), stats := s.stats.(noRecip := s.stats.noRecip + 1)))
  {
  }

  /** One step of Close that leads to another one. */
  lemma ClosingStep(s: State, c: nat, phase: Phase, next: Phase, ch: Chan)
    requires InRange(s) && c < |s.pumps| && s.pumps[c] == PumpClosing(phase) && CanClose(s.chans[c], phase)
    requires CloseStep(s.chans[c], phase) == (ch, Some(next))
    ensures Does(s, c, ViewOf(s, c).(p := PumpClosing(next), chan := ch))
  {
  }

  lemma UnlockingStep(s: State, c: nat)
    requires InRange(s) && c < |s.pumps| && s.pumps[c] == PumpClosing(Unlocking)
    ensures Does(s, c, ViewOf(s, c).(p := Draining, chan := s.chans[c].(writer := false)))
  {
  }

  lemma DrainStep(s: State, c: nat)
    requires InRange(s) && c < |s.pumps| && s.pumps[c] == Draining && s.chans[c].queue != []
    ensures Does(s, c, ViewOf(s, c).(p := DrainFreeing(s.chans[c].queue[0]), chan := Popped(s.chans[c])))
  {
  }

  lemma DrainFreeStep(s: State, c: nat, b: nat)
    requires InRange(s) && c < |s.pumps| && s.pumps[c] == DrainFreeing(b) && b < |s.bufs|
    ensures Does(s, c, ViewOf(s, c).(p := Draining, stats := s.stats.(drained := s.stats.drained + 1)))
  {
  }

  lemma DrainedStep(s: State, c: nat)
    requires InRange(s) && c < |s.pumps| && s.pumps[c] == Draining && s.chans[c].queue == [] && s.chans[c].chanClosed
    ensures Does(s, c, ViewOf(s, c).(p := Stopped))
  {
  }

  /** Close goes on to its next step. */
  lemma ClosingAlone(s0: State, s: State, c: nat, phase: Phase, next: Phase, ch: Chan) returns (s': State)
    requires InRange(s0) && Got(s0, c, s) && s.pumps[c] == PumpClosing(phase) && CanClose(s.chans[c], phase)
    requires CloseStep(s.chans[c], phase) == (ch, Some(next))
    ensures Got(s0, c, s')
    ensures ViewOf(s', c) == ViewOf(s, c).(p := PumpClosing(next), chan := ch)
  {
    hide Reaches, Next, PumpEnabled;
    ClosingStep(s, c, phase, next, ch);
    s' := Advance(s0, c, s, ViewOf(s, c).(p := PumpClosing(next), chan := ch));
  }

  /** The channel is closed for good and nobody has its lock. */
  function Shut(ch: Chan): Chan {
    ch.(isClosed := true, chanClosed := true, writer := false)
  }

  /** Close, up to its unlock. */
  lemma MarkAlone(s0: State, s: State, c: nat) returns (s': State)
    requires InRange(s0) && Got(s0, c, s) && s.pumps[c] == PumpClosing(Testing)
    requires s.chans[c].isClosed ==> s.chans[c].chanClosed
    ensures Got(s0, c, s')
    ensures ViewOf(s', c)
      == ViewOf(s, c).(p := PumpClosing(Unlocking), chan := s.chans[c].(isClosed := true, chanClosed := true))
  {
    hide Reaches, Next, PumpEnabled;
    var ch := s.chans[c];
    if ch.isClosed {
      s' := ClosingAlone(s0, s, c, Testing, Unlocking, ch);
    } else {
      s' := ClosingAlone(s0, s, c, Testing, Marking, ch);
      s' := ClosingAlone(s0, s', c, Marking, ClosingChan, ch.(isClosed := true));
      s' := ClosingAlone(s0, s', c, ClosingChan, Unlocking, ch.(isClosed := true, chanClosed := true));
    }
  }

  /** Close by a pump alone. */
  lemma CloseAlone(s0: State, s: State, c: nat) returns (s': State)
    requires InRange(s0) && Got(s0, c, s) && s.pumps[c] == PumpClosing(Locking)
    requires !s.chans[c].writer && s.chans[c].rlocks == 0 && (s.chans[c].isClosed ==> s.chans[c].chanClosed)
    ensures Got(s0, c, s')
    ensures ViewOf(s', c) == ViewOf(s, c).(p := Draining, chan := Shut(s.chans[c]))
  {
    hide Reaches, Next, PumpEnabled;
    var ch := s.chans[c].(writer := true);
    s' := ClosingAlone(s0, s, c, Locking, Waiting, ch);
    s' := ClosingAlone(s0, s', c, Waiting, Testing, ch);
    s' := MarkAlone(s0, s', c);
    UnlockingStep(s', c);
    s' := Advance(s0, c, s', ViewOf(s', c).(p := Draining, chan := s'.chans[c].(writer := false)));
  }

  /** The failure is reported. */
  lemma ReportAlone(s0: State, s: State, c: nat, b: nat) returns (s': State)
    requires InRange(s0) && Got(s0, c, s) && s.pumps[c] == Freeing(b, false) && b < |s.bufs|
    ensures Got(s0, c, s')
    ensures ViewOf(s', c)
      == ViewOf(s, c).(p := PumpClosing(Locking), stats := s.stats.(noRecip := s.stats.noRecip + 1))
  {
    hide Reaches, Next, PumpEnabled;
    FreeFailedStep(s, c, b);
    s' := Advance(s0, c, s, ViewOf(s, c).(p := Reporting(false)));
    ReportFailureStep(s', c);
    s' := Advance(s0, c, s', ViewOf(s', c).(
      p := PumpClosing(Locking), stats := s'.stats.(noRecip := s'.stats.noRecip + 1)));
  }

  /** One message is drained. */
  lemma DrainOne(s0: State, s: State, c: nat) returns (s': State)
    requires InRange(s0) && Got(s0, c, s) && s.pumps[c] == Draining && s.chans[c].queue != []
    ensures Got(s0, c, s')
    ensures ViewOf(s', c)
      == ViewOf(s, c).(chan := Popped(s.chans[c]), stats := s.stats.(drained := s.stats.drained + 1))
  {
    hide Reaches, Next, PumpEnabled;
    var b := s.chans[c].queue[0];
    assert QueueInRange(s.chans[c].queue, |s.bufs|);
    DrainStep(s, c);
    s' := Advance(s0, c, s, ViewOf(s, c).(p := DrainFreeing(b), chan := Popped(s.chans[c])));
    DrainFreeStep(s', c, b);
    s' := Advance(s0, c, s', ViewOf(s', c).(
      p := Draining, stats := s'.stats.(drained := s'.stats.drained + 1)));
  }

  lemma {:induction false} DrainAlone(s0: State, s: State, c: nat) returns (s': State)
    requires InRange(s0) && Got(s0, c, s) && s.pumps[c] == Draining && s.chans[c].chanClosed
    ensures Got(s0, c, s')
    ensures ViewOf(s', c) == ViewOf(s, c).(p := Stopped, chan := s.chans[c].(queue := []),
      stats := s.stats.(drained := s.stats.drained + |s.chans[c].queue|))
    decreases |s.chans[c].queue|
  {
    hide Reaches, Next, PumpEnabled;
    if s.chans[c].queue == [] {
      DrainedStep(s, c);
      s' := Advance(s0, c, s, ViewOf(s, c).(p := Stopped));
    } else {
      var s1 := DrainOne(s0, s, c);
      s' := DrainAlone(s0, s1, c);
    }
  }

  /** In any reachable state, a pump whose write has failed can, by its own steps once nobody has its
      connector's lock, report one failure, close the connector, release every message that is still
      queued without writing it, and stop. */
  lemma FailureEndsThePump(s: State, c: nat, b: nat) returns (s': State)
    requires Reachable(s) && InRange(s) && c < |s.pumps| && s.pumps[c] == Freeing(b, false)
    requires !s.chans[c].writer && s.chans[c].rlocks == 0
    ensures Reaches(s, PumpStep(c, true), s') && InRange(s') && Elsewhere(s, s', c)
    ensures s'.pumps[c] == Stopped && s'.written[c] == s.written[c]
    ensures s'.chans[c] == s.chans[c].(queue := [], isClosed := true, chanClosed := true)
    ensures s'.stats == s.stats.(
      noRecip := s.stats.noRecip + 1, drained := s.stats.drained + |s.chans[c].queue|)
  {
    hide Reachable, Reaches, Next, PumpEnabled;
    MarkedIsClosed(s, c);
    assert PumpInRange(s.pumps[c], |s.bufs|);
    GotSelf(s, c);
    s' := ReportAlone(s, s, c, b);
    s' := CloseAlone(s, s', c);
    s' := DrainAlone(s, s', c);
  }
}
