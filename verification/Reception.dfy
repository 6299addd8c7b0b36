/** What a read loop answers to the network, in every state, and what becomes of a refused frame. */
module Reception {
  import opened Wire
  import opened Codec
  import opened Parser
  import opened Rejection
  import opened Model
  import opened Runs

  // --- One step ---

  /** A text message is discarded without a trace. */
  lemma TextIgnored(s: State, t: nat)
    requires InRange(s) && t < |s.readers| && s.readers[t].Idle?
    ensures ReadEnabled(s, t, Text) && Next(s, ReadStep(t, Text)) == s
  {
    hide FrameMove, RouteMove, PushMove;
    assert s.readers[t := Idle] == s.readers && s.chans[t := s.chans[t]] == s.chans;
  }

  /** A connection whose next frame cannot be had is given up. */
  lemma ReaderFails(s: State, t: nat)
    requires InRange(s) && t < |s.readers| && s.readers[t].Idle?
    ensures ReadEnabled(s, t, NetError)
    ensures Next(s, ReadStep(t, NetError)) == s.(readers := s.readers[t := Disconnecting])
  {
    hide FrameMove, RouteMove, PushMove;
    assert s.chans[t := s.chans[t]] == s.chans;
  }

  /** The junk is as long as the data that a frame within the rules announces. */
  ghost predicate Fits(stream: seq<byte>, junk: seq<byte>) {
    forall ids: seq<Id>, n: nat :: Allowed(stream, ids, n, MAX_MESSAGE_SIZE) ==> |junk| == n
  }

  /** Such junk there always is: every frame can arrive. */
  lemma JunkFor(stream: seq<byte>) returns (junk: seq<byte>)
    ensures Fits(stream, junk)
  {
    hide Announces;
    junk := [];
    if ids: seq<Id>, n: nat :| Allowed(stream, ids, n, MAX_MESSAGE_SIZE) {
      junk := Zeros(n);
      forall ids': seq<Id>, n': nat | Allowed(stream, ids', n', MAX_MESSAGE_SIZE) ensures |junk| == n' {
        HeaderPassesIff(stream, Eof, MAX_MESSAGE_SIZE);
      }
    }
  }

  predicate NoRecipients(stream: seq<byte>) {
    stream != [] && stream[0] == 0
  }

  ghost predicate HeaderAllowed(stream: seq<byte>) {
    exists ids: seq<Id>, n: nat :: Allowed(stream, ids, n, MAX_MESSAGE_SIZE)
  }

  /** x is a new buffer of connection t for the frame in stream. */
  predicate IsNew(x: Buf, t: nat, stream: seq<byte>) {
    x.refs == 1 && !x.freed && x.from == t && x.stream == stream && x.stage == Reading
  }

  /** A frame arrives: without recipients it leaves no trace; with a fixed part within the rules it
      gets a buffer; with any other the connection is given up. */
  lemma FrameArrives(s: State, t: nat, stream: seq<byte>, end: End, junk: seq<byte>)
    requires InRange(s) && t < |s.readers| && s.readers[t].Idle? && Fits(stream, junk)
    ensures ReadEnabled(s, t, FrameIn(stream, end, junk))
    ensures var s' := Next(s, ReadStep(t, FrameIn(stream, end, junk)));
      if NoRecipients(stream) then s' == s
      else if HeaderAllowed(stream) then
        && |s'.bufs| == |s.bufs| + 1 && s'.bufs[..|s.bufs|] == s.bufs && IsNew(s'.bufs[|s.bufs|], t, stream)
        && s' == s.(readers := s.readers[t := Filling(|s.bufs|, end)], bufs := s'.bufs)
      else s' == s.(readers := s.readers[t := Disconnecting])
  {
    hide FrameMove, RouteMove, PushMove, ParseHeader, Announces, AnnouncesTooMuch, NamesTwice, EndsInHead;
    HeadOutcomes(stream, end, MAX_MESSAGE_SIZE);
    HeaderPassesIff(stream, end, MAX_MESSAGE_SIZE);
    assert s.readers[t := Idle] == s.readers && s.chans[t := s.chans[t]] == s.chans;
  }

  /** The body is read: the frame is accepted if and only if it is in the grammar, ends cleanly, and
      the probe for its end does not stall; otherwise its buffer is released and the connection is
      given up. */
  lemma FrameFilled(s: State, t: nat, b: nat, end: End, stalled: bool)
    requires InRange(s) && t < |s.readers| && s.readers[t] == Filling(b, end) && b < |s.bufs|
    ensures ReadEnabled(s, t, if stalled then Stalled else Go)
    ensures var s' := Next(s, ReadStep(t, if stalled then Stalled else Go));
      var x := s.bufs[b];
      if InGrammar(x.stream, MAX_MESSAGE_SIZE) && end == Eof && !stalled then
        s' == s.(readers := s.readers[t := Received(b)], accepted := s.accepted[t := s.accepted[t] + [b]],
          bufs := s.bufs[b := x.(bytes := s.keys[t] + x.stream, stage := Raw)], fault := s'.fault)
      else
        s' == s.(readers := s.readers[t := Disconnecting], fault := s'.fault,
          bufs := s.bufs[b := x.(refs := x.refs - 1, freed := x.freed || x.refs == 1, stage := Failed)])
    ensures !s.bufs[b].freed && s.bufs[b].refs > 0 ==>
      Next(s, ReadStep(t, if stalled then Stalled else Go)).fault == s.fault
  {
    hide LifeMove, RouteMove, PushMove, InGrammar, Parse, Verdict;
    var stream := s.bufs[b].stream;
    AcceptsExactlyTheGrammar(s.keys[t], stream, end, MAX_MESSAGE_SIZE);
    ChunkingMattersOnlyAtTheProbe(s.keys[t], stream, end, MAX_MESSAGE_SIZE, stalled);
    assert s.chans[t := s.chans[t]] == s.chans;
  }

  // --- A whole frame ---

  lemma RulesKept(stream: seq<byte>)
    ensures InGrammar(stream, MAX_MESSAGE_SIZE) ==> HeaderAllowed(stream)
    ensures HeaderAllowed(stream) ==> !NoRecipients(stream)
  {
    hide ParseHeader, Announces, InGrammar, AnnouncesTooMuch, NamesTwice, EndsInHead;
    HeadOutcomes(stream, Eof, MAX_MESSAGE_SIZE);
    HeaderPassesIff(stream, Eof, MAX_MESSAGE_SIZE);
    InGrammarIff(stream, Eof, MAX_MESSAGE_SIZE);
  }

  /** Where a frame takes an idle connection that handles it undisturbed. */
  ghost function AnswerTo(stream: seq<byte>, end: End, b: nat): ReadLoop {
    if InGrammar(stream, MAX_MESSAGE_SIZE) && end == Eof then Received(b)
    else if NoRecipients(stream) then Idle
    else Disconnecting
  }

  /** Nothing has changed but the acting loop's place, and any buffer it allocated is freed again. */
  ghost predicate NoTrace(s: State, s': State, t: nat) {
    && t < |s.readers| && |s'.readers| == |s.readers|
    && s' == s.(readers := s.readers[t := s'.readers[t]], bufs := s'.bufs)
    && |s'.bufs| >= |s.bufs| && s'.bufs[..|s.bufs|] == s.bufs
    && forall b :: |s.bufs| <= b < |s'.bufs| ==> s'.bufs[b].refs == 0 && s'.bufs[b].freed
  }

  /** A frame on an idle connection is accepted, skipped or ends the connection, depending on its
      bytes and its end alone; if it is not accepted, nothing has been queued, counted or kept. */
  lemma FrameAnswered(s: State, t: nat, stream: seq<byte>, end: End, junk: seq<byte>) returns (ev: Event, s': State)
    requires InRange(s) && t < |s.readers| && s.readers[t].Idle? && Fits(stream, junk)
    ensures ev == FrameIn(stream, end, junk) && ReadEnabled(s, t, ev)
    ensures InRange(s') && Reaches(Next(s, ReadStep(t, ev)), ReadStep(t, Go), s')
    ensures t < |s'.readers| && s'.readers[t] == AnswerTo(stream, end, |s.bufs|)
    ensures !s'.readers[t].Received? ==> NoTrace(s, s', t)
    ensures s'.readers[t].Received? ==>
      && |s'.bufs| == |s.bufs| + 1 && s'.bufs[..|s.bufs|] == s.bufs
      && s'.bufs[|s.bufs|].bytes == s.keys[t] + stream && s'.bufs[|s.bufs|].refs == 1
      && s'.chans == s.chans && s'.registry == s.registry && s'.stats == s.stats
  {
    hide Reaches, ReadEnabled, Next, InGrammar, Announces;
    ev := FrameIn(stream, end, junk);
    FrameArrives(s, t, stream, end, junk);
    RulesKept(stream);
    var s1 := Next(s, ReadStep(t, ev));
    ReachesSelf(s1, ReadStep(t, Go));
    s' := s1;
    if !NoRecipients(stream) && HeaderAllowed(stream) {
      FrameFilled(s1, t, |s.bufs|, end, false);
      ReachesNext(s1, ReadStep(t, Go), s1);
      s' := Next(s1, ReadStep(t, Go));
    }
  }
}
