/** A connection's beginning and end when nothing comes between its steps. */
module Lifecycle {
  import opened Wrappers
  import opened Model
  import opened Locking
  import opened Invariant
  import opened Runs

  // --- Single steps ---

  /** OnConnect's Swap. */
  lemma SwapStep(s: State, t: nat)
    requires InRange(s) && t < |s.readers| && s.readers[t].Fresh?
    ensures ReadEnabled(s, t, Go)
    ensures var key := s.keys[t];
      Next(s, ReadStep(t, Go)) == s.(readers := s.readers[t := if key in s.registry then Starting else AddPending],
        registry := s.registry[key := t], lastSwap := s.lastSwap[key := t])
  {
    hide FrameMove, RouteMove, PushMove;
    assert s.chans[t := s.chans[t]] == s.chans;
  }

  lemma AddStep(s: State, t: nat)
    requires InRange(s) && t < |s.readers| && s.readers[t].AddPending?
    ensures ReadEnabled(s, t, Go)
    ensures Next(s, ReadStep(t, Go)) == s.(
      readers := s.readers[t := Starting], stats := s.stats.(connCount := s.stats.connCount + 1))
  {
    hide FrameMove, RouteMove, PushMove;
    assert s.chans[t := s.chans[t]] == s.chans;
  }

  /** The read loop and its write pump start. */
  lemma StartStep(s: State, t: nat)
    requires InRange(s) && t < |s.readers| && s.readers[t].Starting?
    ensures ReadEnabled(s, t, Go)
    ensures Next(s, ReadStep(t, Go)) == s.(readers := s.readers[t := Idle], pumps := s.pumps[t := Recv])
  {
    hide FrameMove, RouteMove, PushMove;
    assert s.chans[t := s.chans[t]] == s.chans;
  }

  predicate IsRegistered(s: State, t: nat)
    requires t < |s.keys|
  {
    s.keys[t] in s.registry && s.registry[s.keys[t]] == t
  }

  /** OnDisconnect's CompareAndDelete. */
  lemma DeleteStep(s: State, t: nat)
    requires InRange(s) && t < |s.readers| && s.readers[t].Disconnecting?
    ensures ReadEnabled(s, t, Go)
    ensures Next(s, ReadStep(t, Go)) == s.(
      readers := s.readers[t := if IsRegistered(s, t) then SubPending else Closing(Locking)],
      registry := if IsRegistered(s, t) then s.registry - {s.keys[t]} else s.registry, gone := s.gone + {t})
  {
    hide FrameMove, RouteMove, PushMove;
    assert s.chans[t := s.chans[t]] == s.chans;
  }

  lemma SubStep(s: State, t: nat)
    requires InRange(s) && t < |s.readers| && s.readers[t].SubPending?
    ensures ReadEnabled(s, t, Go)
    ensures Next(s, ReadStep(t, Go)) == s.(
      readers := s.readers[t := Closing(Locking)], stats := s.stats.(connCount := s.stats.connCount - 1))
  {
    hide FrameMove, RouteMove, PushMove;
    assert s.chans[t := s.chans[t]] == s.chans;
  }

  /** One step of the deferred Close. */
  lemma ClosingStep(s: State, t: nat, phase: Phase)
    requires InRange(s) && t < |s.readers| && s.readers[t] == Closing(phase) && CanClose(s.chans[t], phase)
    requires !(phase == ClosingChan && s.chans[t].chanClosed)
    ensures ReadEnabled(s, t, Go)
    ensures var (ch, next) := CloseStep(s.chans[t], phase);
      Next(s, ReadStep(t, Go)) == s.(chans := s.chans[t := ch],
        readers := s.readers[t := if next.Some? then Closing(next.value) else Ended])
  {
    hide FrameMove, RouteMove, PushMove;
  }

  // --- Together ---

  /** From s0, connection t's own steps lead to s. */
  ghost predicate Goes(s0: State, t: nat, s: State) {
    InRange(s0) && InRange(s) && Reaches(s0, ReadStep(t, Go), s)
  }

  lemma Step(s0: State, t: nat, s: State) returns (s': State)
    requires Goes(s0, t, s) && ReadEnabled(s, t, Go)
    ensures Goes(s0, t, s') && s' == Next(s, ReadStep(t, Go))
  {
    hide Reaches, ReadEnabled;
    ReachesNext(s0, ReadStep(t, Go), s);
    s' := Next(s, ReadStep(t, Go));
  }

  /** A new connection registers itself under its key, replacing whoever was there, is counted if
      nobody was, and is idle with its pump waiting. */
  lemma Connects(s: State, t: nat) returns (s': State)
    requires InRange(s) && t < |s.readers| && s.readers[t].Fresh?
    ensures Goes(s, t, s')
    ensures var key := s.keys[t];
      s' == s.(readers := s.readers[t := Idle], pumps := s.pumps[t := Recv],
        registry := s.registry[key := t], lastSwap := s.lastSwap[key := t],
        stats := s.stats.(connCount := s.stats.connCount + if key in s.registry then 0 else 1))
  {
    hide Reaches, ReadEnabled, Next, InRange;
    assert InRange(s);
    ReachesSelf(s, ReadStep(t, Go));
    SwapStep(s, t);
    s' := Step(s, t, s);
    if s'.readers[t].AddPending? {
      AddStep(s', t);
      s' := Step(s, t, s');
    }
    StartStep(s', t);
    s' := Step(s, t, s');
  }

  /** OnDisconnect. */
  lemma SignsOff(s: State, t: nat) returns (s': State)
    requires InRange(s) && t < |s.readers| && s.readers[t].Disconnecting?
    ensures Goes(s, t, s')
    ensures s' == s.(readers := s.readers[t := Closing(Locking)], gone := s.gone + {t},
      registry := if IsRegistered(s, t) then s.registry - {s.keys[t]} else s.registry,
      stats := s.stats.(connCount := s.stats.connCount - if IsRegistered(s, t) then 1 else 0))
  {
    hide Reaches, ReadEnabled, Next;
    ReachesSelf(s, ReadStep(t, Go));
    DeleteStep(s, t);
    s' := Step(s, t, s);
    if s'.readers[t].SubPending? {
      SubStep(s', t);
      s' := Step(s, t, s');
    }
  }

  /** The deferred Close goes on to its next step, or returns. */
  lemma ClosingGoes(s0: State, t: nat, s: State, phase: Phase, ch: Chan, next: Option<Phase>) returns (s': State)
    requires Goes(s0, t, s) && t < |s.readers| && t < |s.chans| && s.readers[t] == Closing(phase)
    requires CanClose(s.chans[t], phase) && (phase == ClosingChan ==> !s.chans[t].chanClosed)
    requires CloseStep(s.chans[t], phase) == (ch, next)
    ensures Goes(s0, t, s')
    ensures s' == s.(readers := s.readers[t := if next.Some? then Closing(next.value) else Ended],
      chans := s.chans[t := ch])
  {
    hide Reaches, ReadEnabled, Next;
    ClosingStep(s, t, phase);
    s' := Step(s0, t, s);
  }

  /** Close from its test to its return. */
  lemma Marks(s0: State, t: nat, s: State) returns (s': State)
    requires Goes(s0, t, s) && t < |s.readers| && t < |s.chans| && s.readers[t] == Closing(Testing)
    requires s.chans[t].isClosed <==> s.chans[t].chanClosed
    ensures Goes(s0, t, s')
    ensures s' == s.(readers := s.readers[t := Ended],
      chans := s.chans[t := s.chans[t].(isClosed := true, chanClosed := true, writer := false)])
  {
    hide Goes;
    var ch := s.chans[t];
    s' := s;
    if ch.isClosed {
      s' := ClosingGoes(s0, t, s', Testing, ch, Some(Unlocking));
    } else {
      s' := ClosingGoes(s0, t, s', Testing, ch, Some(Marking));
      s' := ClosingGoes(s0, t, s', Marking, ch.(isClosed := true), Some(ClosingChan));
      s' := ClosingGoes(s0, t, s', ClosingChan, ch.(isClosed := true, chanClosed := true), Some(Unlocking));
    }
    s' := ClosingGoes(s0, t, s', Unlocking, ch.(isClosed := true, chanClosed := true, writer := false), None);
  }

  /** The deferred Close by a read loop alone. */
  lemma Closes(s0: State, t: nat, s: State) returns (s': State)
    requires Goes(s0, t, s) && t < |s.readers| && t < |s.chans| && s.readers[t] == Closing(Locking)
    requires !s.chans[t].writer && s.chans[t].rlocks == 0 && (s.chans[t].isClosed <==> s.chans[t].chanClosed)
    ensures Goes(s0, t, s')
    ensures s' == s.(readers := s.readers[t := Ended],
      chans := s.chans[t := s.chans[t].(isClosed := true, chanClosed := true)])
  {
    hide Goes;
    var ch := s.chans[t].(writer := true);
    s' := ClosingGoes(s0, t, s, Locking, ch, Some(Waiting));
    s' := ClosingGoes(s0, t, s', Waiting, ch, Some(Testing));
    s' := Marks(s0, t, s');
  }

  /** Outside Close a connector is marked closed exactly if its channel is closed. */
  lemma MarkedIsClosed(s: State, c: nat)
    requires Reachable(s) && c < |s.chans| && !s.chans[c].writer
    ensures s.chans[c].isClosed <==> s.chans[c].chanClosed
  {
    hide Reachable;
    ReachableInv(s);
    assert ConnOk(s.chans[c], s.readers[c], s.pumps[c], s.cap);
  }

  /** In any reachable state, a connection that is given up can, by its own steps once nobody has its
      connector's lock, take itself out of the registry if it is still registered, count itself out
      in that case only, close its connector, leaving what is queued to its pump, and end. */
  lemma Disconnects(s: State, t: nat) returns (s': State)
    requires Reachable(s) && InRange(s) && t < |s.readers| && s.readers[t].Disconnecting?
    requires !s.chans[t].writer && s.chans[t].rlocks == 0
    ensures Goes(s, t, s')
    ensures s' == s.(readers := s.readers[t := Ended], gone := s.gone + {t},
      chans := s.chans[t := s.chans[t].(isClosed := true, chanClosed := true)],
      registry := if IsRegistered(s, t) then s.registry - {s.keys[t]} else s.registry,
      stats := s.stats.(connCount := s.stats.connCount - if IsRegistered(s, t) then 1 else 0))
  {
    hide Reachable, Goes;
    MarkedIsClosed(s, t);
    s' := SignsOff(s, t);
    s' := Closes(s, t, s');
  }
}
