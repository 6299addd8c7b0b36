/** One frame from its arrival to the queues while everybody but its sender rests. */
module Arrival {
  import opened Wire
  import opened Message
  import opened Targets
  import opened Codec
  import opened Parser
  import opened Model
  import opened Content
  import opened Registry
  import opened Invariant
  import opened Runs
  import opened Alone
  import opened Outcome

  // --- From the parser to the target loop ---

  lemma FillStep(s: State, t: nat, b: nat)
    requires InRange(s) && t < |s.readers| && s.readers[t] == Filling(b, Eof) && b < |s.bufs|
    requires InGrammar(s.bufs[b].stream, MAX_MESSAGE_SIZE)
    ensures Does(s, t, b, ViewOf(s, t, b).(r := Received(b), bytes := s.keys[t] + s.bufs[b].stream))
  {
    hide LifeMove, RouteMove, PushMove, InGrammar;
    VerdictOnFrame(s.keys[t], s.bufs[b].stream);
  }

  lemma VerdictOnFrame(from: Id, stream: seq<byte>)
    requires InGrammar(stream, MAX_MESSAGE_SIZE)
    ensures Verdict(from, stream, Eof, MAX_MESSAGE_SIZE, false) == Accepted(from + stream)
  {
    AcceptsExactlyTheGrammar(from, stream, Eof, MAX_MESSAGE_SIZE);
  }

  lemma ExtractStep(s: State, t: nat, b: nat)
    requires InRange(s) && t < |s.readers| && s.readers[t] == Received(b) && b < |s.bufs|
    ensures var targets := Recipients(s.bufs[b].bytes, s.keys[t]);
      Does(s, t, b, ViewOf(s, t, b).(r := if targets == [] then Finishing(b) else Counting(b, targets)))
  {
    hide LifeMove, RouteMove, PushMove, Recipients;
  }

  lemma CountingStep(s: State, t: nat, b: nat, targets: seq<Id>)
    requires InRange(s) && t < |s.readers| && s.readers[t] == Counting(b, targets) && b < |s.bufs|
    ensures Does(s, t, b, ViewOf(s, t, b).(
      r := Zeroing(b, targets), stats := s.stats.(processed := s.stats.processed + 1)))
  {
    hide LifeMove, RouteMove, PushMove;
  }

  lemma ZeroingStep(s: State, t: nat, b: nat, targets: seq<Id>)
    requires InRange(s) && t < |s.readers| && s.readers[t] == Zeroing(b, targets) && b < |s.bufs|
    ensures Does(s, t, b, ViewOf(s, t, b).(
      r := Handling(Work(b, targets, 0, 0), AtLookup), bytes := Zeroed(s.bufs[b].bytes)))
  {
    hide LifeMove, RouteMove, PushMove;
  }

  /** The read loop's own Release, after which it goes on to the next frame. */
  lemma FinishStep(s: State, t: nat, b: nat)
    requires InRange(s) && t < |s.readers| && s.readers[t] == Finishing(b) && b < |s.bufs|
    ensures Does(s, t, b, ViewOf(s, t, b).(r := Idle, refs := s.bufs[b].refs - 1))
  {
    hide LifeMove, RouteMove, PushMove;
  }

  /** Parsing and extraction. */
  lemma ParseAlone(s0: State, s: State, t: nat, b: nat) returns (s': State)
    requires InRange(s0) && Got(s0, t, b, s) && t < |s.readers| && s.readers[t] == Filling(b, Eof) && b < |s.bufs|
    requires InGrammar(s.bufs[b].stream, MAX_MESSAGE_SIZE)
    ensures Got(s0, t, b, s')
    ensures var m := s.keys[t] + s.bufs[b].stream;
      var targets := Recipients(m, s.keys[t]);
      ViewOf(s', t, b) == ViewOf(s, t, b).(
        r := if targets == [] then Finishing(b) else Counting(b, targets), bytes := m)
  {
    hide Reaches, Next, ReadEnabled, InGrammar;
    var m := s.keys[t] + s.bufs[b].stream;
    FillStep(s, t, b);
    var s1 := Advance(s0, t, b, s, ViewOf(s, t, b).(r := Received(b), bytes := m));
    assert s1.keys == s.keys && s1.bufs[b].bytes == m;
    ExtractStep(s1, t, b);
    var targets := Recipients(m, s.keys[t]);
    s' := Advance(s0, t, b, s1, ViewOf(s1, t, b).(r := if targets == [] then Finishing(b) else Counting(b, targets)));
  }

  /** Counting the message and wiping its recipients. */
  lemma WipeAlone(s0: State, s: State, t: nat, b: nat, targets: seq<Id>) returns (s': State)
    requires InRange(s0) && Got(s0, t, b, s) && t < |s.readers| && s.readers[t] == Counting(b, targets) && b < |s.bufs|
    ensures Got(s0, t, b, s')
    ensures ViewOf(s', t, b) == ViewOf(s, t, b).(r := Handling(Work(b, targets, 0, 0), AtLookup),
      bytes := Zeroed(s.bufs[b].bytes), stats := s.stats.(processed := s.stats.processed + 1))
  {
    hide Reaches, Next, ReadEnabled;
    CountingStep(s, t, b, targets);
    var s1 := Advance(s0, t, b, s, ViewOf(s, t, b).(
      r := Zeroing(b, targets), stats := s.stats.(processed := s.stats.processed + 1)));
    ZeroingStep(s1, t, b, targets);
    s' := Advance(s0, t, b, s1, ViewOf(s1, t, b).(
      r := Handling(Work(b, targets, 0, 0), AtLookup), bytes := Zeroed(s1.bufs[b].bytes)));
  }

  /** From the count of the message to the end of HandleMessage. */
  function RoutedView(v: View, targets: seq<Id>, b: nat, registry: map<Id, nat>, cap: nat): View
    requires forall k :: k in registry ==> registry[k] < |v.chans|
  {
    var end := LoopEnd(v.(r := Handling(Work(b, targets, 0, 0), AtLookup), bytes := Zeroed(v.bytes),
      stats := v.stats.(processed := v.stats.processed + 1)), registry, cap);
    end.(r := Finishing(b), stats := EndStats(end.stats, end.r.w))
  }

  lemma RouteAlone(s0: State, s: State, t: nat, b: nat, targets: seq<Id>) returns (s': State)
    requires InRange(s0) && Got(s0, t, b, s) && t < |s.readers| && s.readers[t] == Counting(b, targets) && b < |s.bufs|
    requires Unlocked(targets, s.registry, s.chans)
    ensures Got(s0, t, b, s')
    ensures ViewOf(s', t, b) == RoutedView(ViewOf(s, t, b), targets, b, s.registry, s.cap)
  {
    hide Reaches, Next, ReadEnabled, Zeroed, LoopEnd;
    s' := WipeAlone(s0, s, t, b, targets);
    s' := HandlingAlone(s0, s', t, Work(b, targets, 0, 0));
  }

  /** The view at the end of HandleMessage, for a message m of connection t in buffer b. */
  function HandledView(v: View, key: Id, m: seq<byte>, b: nat, registry: map<Id, nat>, cap: nat): View
    requires forall k :: k in registry ==> registry[k] < |v.chans|
  {
    var targets := Recipients(m, key);
    if targets == [] then v.(r := Finishing(b), bytes := m) else
    RoutedView(v.(r := Counting(b, targets), bytes := m), targets, b, registry, cap)
  }

  /** No connector registered for one of these identities is about to be closed. */
  ghost predicate Unlocked(ids: seq<Id>, registry: map<Id, nat>, chans: seq<Chan>) {
    forall id :: id in ids && id in registry && registry[id] < |chans| ==> !chans[registry[id]].writer
  }

  /** From the parsed frame to the end of HandleMessage. */
  lemma HandleAlone(s: State, t: nat, b: nat) returns (s': State)
    requires InRange(s) && t < |s.readers| && s.readers[t] == Filling(b, Eof) && b < |s.bufs|
    requires InGrammar(s.bufs[b].stream, MAX_MESSAGE_SIZE)
    requires Unlocked(Recipients(s.keys[t] + s.bufs[b].stream, s.keys[t]), s.registry, s.chans)
    ensures Got(s, t, b, s')
    ensures ViewOf(s', t, b)
      == HandledView(ViewOf(s, t, b), s.keys[t], s.keys[t] + s.bufs[b].stream, b, s.registry, s.cap)
  {
    hide Reaches, Next, ReadEnabled, Recipients, RoutedView, InGrammar;
    GotSelf(s, t, b);
    s' := ParseAlone(s, s, t, b);
    var targets := Recipients(s.keys[t] + s.bufs[b].stream, s.keys[t]);
    if targets != [] {
      s' := RouteAlone(s, s', t, b, targets);
    }
  }

  /** conn.Reader hands over a frame; its header passes and its buffer is allocated. */
  lemma ArriveStep(s: State, t: nat, stream: seq<byte>, ids: seq<Id>, data: seq<byte>, junk: seq<byte>)
    returns (ev: Event, s': State)
    requires InRange(s) && t < |s.readers| && s.readers[t].Idle?
    requires IsFrame(stream, ids, data, MAX_MESSAGE_SIZE) && |junk| == |data|
    ensures ev == FrameIn(stream, Eof, junk) && ReadEnabled(s, t, ev) && s' == Next(s, ReadStep(t, ev))
    ensures |s'.bufs| == |s.bufs| + 1 && s'.bufs[..|s.bufs|] == s.bufs
    ensures s'.bufs[|s.bufs|].stream == stream && s'.bufs[|s.bufs|].refs == 1
    ensures s' == s.(readers := s.readers[t := Filling(|s.bufs|, Eof)], bufs := s'.bufs, fault := s'.fault)
  {
    hide FrameMove, RouteMove, PushMove;
    ev := FrameIn(stream, Eof, junk);
    FrameHeader(ids, data, Eof, MAX_MESSAGE_SIZE);
    s' := Next(s, ReadStep(t, ev));
    assert s'.chans == s.chans;
  }

  /** c's connector is named by the frame, is not the sender's key, and is registered, open and not full. */
  predicate IsServed(s: State, t: nat, ids: seq<Id>, c: nat)
    requires t < |s.keys| && c < |s.keys| && c < |s.chans|
  {
    var k := s.keys[c];
    && k in ids && k != s.keys[t] && k in s.registry && s.registry[k] == c
    && !s.chans[c].isClosed && |s.chans[c].queue| < s.cap
  }

  /** A frame of the grammar that arrives on an idle connection, handled by that connection alone. */
  lemma FrameHandled(s: State, t: nat, stream: seq<byte>, ids: seq<Id>, data: seq<byte>, junk: seq<byte>)
    returns (ev: Event, s1: State, s': State)
    requires InRange(s) && t < |s.readers| && s.readers[t].Idle?
    requires IsFrame(stream, ids, data, MAX_MESSAGE_SIZE) && |junk| == |data|
    requires Unlocked(Recipients(s.keys[t] + stream, s.keys[t]), s.registry, s.chans)
    ensures ev == FrameIn(stream, Eof, junk) && ReadEnabled(s, t, ev) && s1 == Next(s, ReadStep(t, ev))
    ensures Got(s1, t, |s.bufs|, s') && |s1.bufs| == |s.bufs| + 1 && s1.bufs[..|s.bufs|] == s.bufs
    ensures s1 == s.(readers := s.readers[t := Filling(|s.bufs|, Eof)], bufs := s1.bufs, fault := s1.fault)
    ensures var v := View(Filling(|s.bufs|, Eof), s.chans, 1, s1.bufs[|s.bufs|].bytes, s.stats);
      ViewOf(s', t, |s.bufs|) == HandledView(v, s.keys[t], s.keys[t] + stream, |s.bufs|, s.registry, s.cap)
  {
    hide Reaches, Next, ReadEnabled, Recipients, RoutedView;
    ev, s1 := ArriveStep(s, t, stream, ids, data, junk);
    assert InGrammar(stream, MAX_MESSAGE_SIZE);
    s' := HandleAlone(s1, t, |s.bufs|);
  }

  /** HandleMessage puts its buffer into exactly the queues it should. */
  lemma HandledExactly(
      v: View, key: Id, m: seq<byte>, b: nat, registry: map<Id, nat>, keys: seq<Id>, cap: nat, c: nat)
    requires Distinct(Recipients(m, key)) && c < |v.chans| == |keys|
    requires forall k :: k in registry ==> registry[k] < |keys| && keys[registry[k]] == k
    ensures HandledView(v, key, m, b, registry, cap).chans[c] == (
      var k := keys[c];
      if k in Recipients(m, key) && k in registry && registry[k] == c && Accepts(v.chans[c], cap)
      then WithCopy(v.chans[c], b) else v.chans[c])
  {
    hide Recipients, Zeroed, LoopEnd, Accepts;
    var targets := Recipients(m, key);
    if targets != [] {
      var start := v.(r := Handling(Work(b, targets, 0, 0), AtLookup), bytes := Zeroed(m),
        stats := v.stats.(processed := v.stats.processed + 1));
      LoopIsExact(start, registry, keys, cap, c);
      assert targets[0..] == targets;
    }
  }

  lemma HandledBytes(v: View, key: Id, m: seq<byte>, b: nat, registry: map<Id, nat>, cap: nat)
    requires forall k :: k in registry ==> registry[k] < |v.chans|
    ensures var v' := HandledView(v, key, m, b, registry, cap);
      v'.r == Finishing(b) && |v'.chans| == |v.chans| && v'.bytes == if Recipients(m, key) == [] then m else Zeroed(m)
  {
    hide Recipients, Zeroed;
  }

  /** The queues after FrameHandled. */
  lemma QueuesExact(s: State, t: nat, stream: seq<byte>, ids: seq<Id>, data: seq<byte>, v: View, c: nat)
    requires InRange(s) && KeysMatch(s) && t < |s.keys| && c < |s.chans| && v.chans == s.chans
    requires IsFrame(stream, ids, data, MAX_MESSAGE_SIZE)
    ensures HandledView(v, s.keys[t], s.keys[t] + stream, |s.bufs|, s.registry, s.cap).chans[c]
      == if IsServed(s, t, ids, c) then WithCopy(s.chans[c], |s.bufs|) else s.chans[c]
  {
    hide Recipients, HandledView, ReaderInRange;
    RecipientsOfFrame(s.keys[t], ids, data);
    HandledExactly(v, s.keys[t], s.keys[t] + stream, |s.bufs|, s.registry, s.keys, s.cap, c);
  }

  /** The counters after a message with recipients, of whom taken get it and refused have no room. */
  function Settled(st: Stats, extra: nat, taken: nat, refused: nat): Stats {
    var none := if taken == 0 then 1 else 0;
    st.(processed := st.processed + 1, pushes := st.pushes + taken, extra := extra,
        dropped := st.dropped + refused, zeroMatch := st.zeroMatch + none, noRecip := st.noRecip + refused + none)
  }

  lemma HandledCounts(v: View, key: Id, m: seq<byte>, b: nat, registry: map<Id, nat>, cap: nat)
    requires Distinct(Recipients(m, key)) && OneKeyEach(registry)
    requires forall k :: k in registry ==> registry[k] < |v.chans|
    ensures var (targets, v') := (Recipients(m, key), HandledView(v, key, m, b, registry, cap));
      var taken := |Answering(targets, true, registry, v.chans, cap)|;
      var refused := |Answering(targets, false, registry, v.chans, cap)|;
      && v'.refs == v.refs + taken
      && v'.stats == if targets == [] then v.stats else Settled(v.stats, v'.stats.extra, taken, refused)
  {
    hide Recipients, Zeroed, LoopEnd, Answering, OneKeyEach;
    var targets := Recipients(m, key);
    if targets == [] {
      NobodyAnswers(targets, registry, v.chans, cap);
    } else {
      var start := v.(r := Handling(Work(b, targets, 0, 0), AtLookup), bytes := Zeroed(m),
        stats := v.stats.(processed := v.stats.processed + 1));
      LoopCounts(start, registry, cap);
      assert targets[0..] == targets;
    }
  }

  /** The identities that the frame names besides its sender and whose connector is registered and
      takes the message or, with ok false, does not. */
  ghost function Others(s: State, t: nat, ids: seq<Id>, ok: bool): set<Id>
    requires t < |s.keys|
  {
    set id | id in ids && id != s.keys[t] && Answers(id, ok, s.registry, s.chans, s.cap)
  }

  /** The counters and the new buffer's references after FrameHandled. */
  lemma CountsExact(s: State, t: nat, stream: seq<byte>, ids: seq<Id>, data: seq<byte>, v: View)
    requires InRange(s) && KeysMatch(s) && t < |s.keys| && v.chans == s.chans
    requires IsFrame(stream, ids, data, MAX_MESSAGE_SIZE)
    ensures var v' := HandledView(v, s.keys[t], s.keys[t] + stream, |s.bufs|, s.registry, s.cap);
      && v'.refs == v.refs + |Others(s, t, ids, true)|
      && v'.stats == if exists id :: id in ids && id != s.keys[t]
           then Settled(v.stats, v'.stats.extra, |Others(s, t, ids, true)|, |Others(s, t, ids, false)|) else v.stats
  {
    hide Recipients, HandledView, ReaderInRange, Answers;
    var targets := Recipients(s.keys[t] + stream, s.keys[t]);
    RecipientsOfFrame(s.keys[t], ids, data);
    HandledCounts(v, s.keys[t], s.keys[t] + stream, |s.bufs|, s.registry, s.cap);
    assert Answering(targets, true, s.registry, s.chans, s.cap) == Others(s, t, ids, true);
    assert Answering(targets, false, s.registry, s.chans, s.cap) == Others(s, t, ids, false);
    if id :| id in ids && id != s.keys[t] {
      assert id in targets;
    } else {
      EmptyIff(targets);
    }
  }

  lemma EmptyIff(ids: seq<Id>)
    ensures ids == [] <==> forall id :: id !in ids
  {
    if ids != [] {
      assert ids[0] in ids;
    }
  }

  lemma ReachableKeysMatch(s: State)
    requires Reachable(s)
    ensures InRange(s) && KeysMatch(s)
  {
    hide Reachable, MemoryOk, ContentOk, InRange;
    ReachableInv(s);
    RegisteredUnderOwnKey(s);
  }

  /** From s to s' connection t has distributed a frame for ids: every connection that is served has
      one more copy in its queue, the other channels are unchanged, the frame's buffer has one
      reference for each copy and shows what recipients are promised, the counters have moved as
      the queues have, and t is idle. */
  ghost predicate GotThrough(s: State, s': State, t: nat, ids: seq<Id>, data: seq<byte>)
    requires t < |s.keys| == |s.chans| && |ids| < 256 && |data| < UINT32_LIMIT
  {
    var (b, forOthers) := (|s.bufs|, exists id :: id in ids && id != s.keys[t]);
    && t < |s'.readers| && s'.readers[t] == Idle && |s'.chans| == |s.chans|
    && (forall c :: 0 <= c < |s.chans| ==>
          s'.chans[c] == if IsServed(s, t, ids, c)
            then s.chans[c].(queue := s.chans[c].queue + [b], pushed := s.chans[c].pushed + [b]) else s.chans[c])
    && |s'.bufs| == b + 1 && s'.bufs[b].refs == |Others(s, t, ids, true)|
    && (forOthers ==> s'.bufs[b].bytes == Delivered(s.keys[t], |ids|, data))
    && s'.stats == if forOthers
         then Settled(s.stats, s'.stats.extra, |Others(s, t, ids, true)|, |Others(s, t, ids, false)|) else s.stats
  }

  /** What the relay is for: in any reachable state in which no connector the frame names is about
      to be closed, a frame of the grammar that arrives on an idle connection gets, by that
      connection's steps alone, into the queue of every connector that is named, registered, open
      and not full, once each, and into no other; what those connectors then hold is the frame as
      the protocol promises it to recipients, and the sender's connection is idle again. */
  lemma FrameGetsThrough(s: State, t: nat, stream: seq<byte>, ids: seq<Id>, data: seq<byte>, junk: seq<byte>)
    returns (ev: Event, s1: State, s': State)
    requires Reachable(s) && t < |s.readers| && s.readers[t].Idle?
    requires IsFrame(stream, ids, data, MAX_MESSAGE_SIZE) && |junk| == |data|
    requires Unlocked(ids, s.registry, s.chans)
    ensures InRange(s) && ev == FrameIn(stream, Eof, junk) && ReadEnabled(s, t, ev) && s1 == Next(s, ReadStep(t, ev))
    ensures InRange(s') && Reaches(s1, ReadStep(t, Go), s') && s'.pumps == s.pumps && s'.written == s.written
    ensures |s.chans| == |s.keys| && GotThrough(s, s', t, ids, data)
  {
    hide Reaches, Next, ReadEnabled, Reachable, Recipients, Zeroed, Delivered, IsServed, HandledView, MoveOf, Others,
      Settled, ParseHeader;
    ReachableKeysMatch(s);
    var from := s.keys[t];
    RecipientsOfFrame(from, ids, data);
    ZeroedIsDelivered(from, ids, data);
    ev, s1, s' := FrameHandled(s, t, stream, ids, data, junk);
    var v := View(Filling(|s.bufs|, Eof), s.chans, 1, s1.bufs[|s.bufs|].bytes, s.stats);
    HandledBytes(v, from, from + stream, |s.bufs|, s.registry, s.cap);
    CountsExact(s, t, stream, ids, data, v);
    FinishStep(s', t, |s.bufs|);
    s' := Advance(s1, t, |s.bufs|, s', ViewOf(s', t, |s.bufs|).(r := Idle, refs := s'.bufs[|s.bufs|].refs - 1));
    forall c | 0 <= c < |s.chans|
      ensures s'.chans[c] == if IsServed(s, t, ids, c) then WithCopy(s.chans[c], |s.bufs|) else s.chans[c]
    {
      QueuesExact(s, t, stream, ids, data, v, c);
    }
  }
}
