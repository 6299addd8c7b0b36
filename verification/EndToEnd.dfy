/** From one client's line to another client's screen. */
module EndToEnd {
  import opened Wire
  import opened Message
  import opened Codec
  import opened Sequences
  import opened Model
  import opened Traffic
  import opened Invariant
  import opened Safety
  import opened Client
  import opened Runs
  import opened Arrival
  import Departure

  // --- Through any interleaving ---

  /** Whatever is written on c decodes, at the recipient, to the authenticated key of the sender and
      the data of the frame that the sender's connection carried. */
  lemma RecipientReads(s: State, c: nat, j: nat) returns (ids: seq<Id>, data: seq<byte>)
    requires Reachable(s) && c < |s.written| && j < |s.written[c]|
    ensures c < |s.keys| && Legitimate(s, c, s.written[c][j])
    ensures var d := s.written[c][j];
      && IsFrame(s.bufs[d.buf].stream, ids, data, MAX_MESSAGE_SIZE) && s.keys[c] in ids
      && Decode(d.bytes) == Inbound(s.keys[s.bufs[d.buf].from], data)
  {
    hide Reachable;
    DeliveriesLegitimate(s, c, j);
    var d := s.written[c][j];
    var x := s.bufs[d.buf];
    ids, data :| IsFrame(x.stream, ids, data, MAX_MESSAGE_SIZE) && s.keys[c] in ids
      && d.bytes == Delivered(s.keys[x.from], |ids|, data);
    DeliveredFields(s.keys[x.from], |ids|, data);
    DecodeAgreesWithMessage(d.bytes);
  }

  /** If the frame was the i-th that a client made of its line, the recipient reads the i-th chunk. */
  lemma ChunkArrives(s: State, c: nat, j: nat, recipients: seq<Id>, payload: seq<byte>, i: nat)
    requires Reachable(s) && c < |s.written| && j < |s.written[c]|
    requires s.written[c][j].buf < |s.bufs| && i < |Frames(recipients, payload)|
    requires s.bufs[s.written[c][j].buf].stream == Frames(recipients, payload)[i]
    ensures c < |s.keys| && Legitimate(s, c, s.written[c][j])
    ensures s.keys[c] in Addressed(recipients) && i < |Chunks(payload)|
    ensures Decode(s.written[c][j].bytes)
      == Inbound(s.keys[s.bufs[s.written[c][j].buf].from], Chunks(payload)[i])
  {
    hide Reachable, Decode, Legitimate;
    var ids, data := RecipientReads(s, c, j);
    FramesCarryChunks(Addressed(recipients), payload, 0);
    FrameInjective(ids, data, Addressed(recipients), Chunks(payload)[i]);
  }

  /** The deliveries among ds of connection t's frames, in the order of writing. */
  ghost function SentBy(ds: seq<Delivery>, bufs: seq<Buf>, t: nat): seq<Delivery> {
    if ds == [] then [] else
    var (front, d) := (SentBy(ds[..|ds| - 1], bufs, t), ds[|ds| - 1]);
    if d.buf < |bufs| && bufs[d.buf].from == t then front + [d] else front
  }

  /** Their buffers are those that FifoPerPair speaks of. */
  lemma {:induction false} SentByBufs(ds: seq<Delivery>, bufs: seq<Buf>, t: nat)
    ensures |SentBy(ds, bufs, t)| == |WrittenFrom(ds, bufs, t)|
    ensures forall i :: (0 <= i < |SentBy(ds, bufs, t)| ==>
      SentBy(ds, bufs, t)[i].buf == WrittenFrom(ds, bufs, t)[i] && SentBy(ds, bufs, t)[i] in ds)
  {
    if ds != [] {
      SentByBufs(ds[..|ds| - 1], bufs, t);
      assert ds == ds[..|ds| - 1] + [ds[|ds| - 1]];
    }
  }

  lemma SentByIncreasing(s: State, c: nat, t: nat)
    requires Reachable(s) && c < |s.written| && t < |s.accepted|
    ensures Increasing(WrittenFrom(s.written[c], s.bufs, t)) && Increasing(s.accepted[t])
    ensures forall b :: b in WrittenFrom(s.written[c], s.bufs, t) ==> b in s.accepted[t]
  {
    hide Reachable;
    ReachableInv(s);
    WrittenFromIncreasing(s, c, |s.written[c]|, t);
    assert s.written[c][..|s.written[c]|] == s.written[c];
    assert AcceptedOk(s.accepted[t], t, s.bufs);
    forall b | b in WrittenFrom(s.written[c], s.bufs, t) ensures b in s.accepted[t] {
      WrittenWasAccepted(s, c, t, b);
    }
  }

  /** The frames of a line, accepted in a row from place p on, that have all been written on c. */
  ghost predicate LineWritten(s: State, c: nat, t: nat, p: nat, fs: seq<seq<byte>>) {
    && c < |s.written| && t < |s.accepted| && p + |fs| <= |s.accepted[t]|
    && var bs := s.accepted[t][p..p + |fs|];
       && (forall b :: b in bs ==> b in WrittenFrom(s.written[c], s.bufs, t))
       && forall i :: 0 <= i < |fs| ==> bs[i] < |s.bufs| && s.bufs[bs[i]].stream == fs[i]
  }

  /** What a recipient reads of deliveries. */
  function Screen(ds: seq<Delivery>): seq<seq<byte>> {
    seq(|ds|, i requires 0 <= i < |ds| => if Decode(ds[i].bytes).Inbound? then Decode(ds[i].bytes).payload else [])
  }

  /** d is t's delivery of the frame f on c. */
  ghost predicate Carries(s: State, c: nat, t: nat, d: Delivery, f: seq<byte>)
    requires c < |s.written|
  {
    d in s.written[c] && d.buf < |s.bufs| && s.bufs[d.buf].from == t && s.bufs[d.buf].stream == f
  }

  /** The frames of a line that has been written are found in a row among t's deliveries. */
  lemma LineFound(s: State, c: nat, t: nat, p: nat, fs: seq<seq<byte>>) returns (line: seq<Delivery>, q: nat)
    requires Reachable(s) && LineWritten(s, c, t, p, fs)
    ensures c < |s.written|
    ensures var ds := SentBy(s.written[c], s.bufs, t); q + |fs| <= |ds| && line == ds[q..q + |fs|]
    ensures forall i :: 0 <= i < |fs| ==> Carries(s, c, t, line[i], fs[i])
  {
    hide Reachable;
    var xs, bs := WrittenFrom(s.written[c], s.bufs, t), s.accepted[t][p..p + |fs|];
    SentByIncreasing(s, c, t);
    SentByBufs(s.written[c], s.bufs, t);
    q := StretchStays(xs, s.accepted[t], p, bs);
    line := SentBy(s.written[c], s.bufs, t)[q..q + |fs|];
    forall i | 0 <= i < |fs| ensures Carries(s, c, t, line[i], fs[i]) {
      assert bs[i] == xs[q + i];
      WrittenFromMembers(s.written[c], s.bufs, t, xs[q + i]);
    }
  }

  /** One frame of the line, found among the deliveries. */
  lemma ChunkRead(s: State, c: nat, t: nat, d: Delivery, recipients: seq<Id>, payload: seq<byte>, i: nat)
    requires Reachable(s) && c < |s.written| && i < |Frames(recipients, payload)|
    requires Carries(s, c, t, d, Frames(recipients, payload)[i])
    ensures t < |s.keys| && i < |Chunks(payload)| && Decode(d.bytes) == Inbound(s.keys[t], Chunks(payload)[i])
  {
    hide Reachable, Decode, Frames, Chunks;
    var j :| 0 <= j < |s.written[c]| && s.written[c][j] == d;
    ChunkArrives(s, c, j, recipients, payload, i);
  }

  /** A whole line arrives: if t's accepted frames contain a client's frames in a row and all of them
      have been written on c, then they were written there in a row among t's frames, each decodes
      to t's key, and what the recipient reads of them is the line. */
  lemma LineArrives(s: State, c: nat, t: nat, p: nat, recipients: seq<Id>, payload: seq<byte>)
    returns (line: seq<Delivery>, q: nat)
    requires Reachable(s) && LineWritten(s, c, t, p, Frames(recipients, payload)) && payload != []
    ensures var ds := SentBy(s.written[c], s.bufs, t);
      q + |Frames(recipients, payload)| <= |ds| && line == ds[q..q + |Frames(recipients, payload)|]
    ensures t < |s.keys| && |line| == |Chunks(payload)|
    ensures forall i :: 0 <= i < |line| ==> Decode(line[i].bytes) == Inbound(s.keys[t], Chunks(payload)[i])
    ensures Concat(Screen(line)) == payload
  {
    hide Reachable, Decode, SentBy, LineWritten, Carries, Frames, Chunks;
    var fs := Frames(recipients, payload);
    line, q := LineFound(s, c, t, p, fs);
    LineCount(recipients, payload);
    forall i | 0 <= i < |line|
      ensures t < |s.keys| && Decode(line[i].bytes) == Inbound(s.keys[t], Chunks(payload)[i])
    {
      ChunkRead(s, c, t, line[i], recipients, payload, i);
    }
    assert t < |s.keys| by {
      ChunkRead(s, c, t, line[0], recipients, payload, 0);
    }
    ScreenShows(line, s.keys[t], payload);
  }

  lemma LineCount(recipients: seq<Id>, payload: seq<byte>)
    ensures |Frames(recipients, payload)| == |Chunks(payload)|
    ensures payload != [] ==> Chunks(payload) != []
  {
    FramesCarryChunks(Addressed(recipients), payload, 0);
  }

  lemma ScreenShows(line: seq<Delivery>, from: Id, payload: seq<byte>)
    requires |line| == |Chunks(payload)|
    requires forall i :: 0 <= i < |line| ==> Decode(line[i].bytes) == Inbound(from, Chunks(payload)[i])
    ensures Concat(Screen(line)) == payload
  {
    hide Decode;
    assert Screen(line) == Chunks(payload);
    ChunksConcat(payload, 0);
  }

  // --- Undisturbed ---

  /** A delivery that happens: if c is served by a frame and its pump is waiting, then the sender's
      steps alone, followed by the pump's alone with working writes, write the frame on c, behind
      what was queued there before, and the recipient reads the sender's key and data. */
  lemma FrameIsDelivered(s: State, t: nat, stream: seq<byte>, ids: seq<Id>, data: seq<byte>, junk: seq<byte>, c: nat)
    returns (ev: Event, s1: State, s2: State, s3: State, ds: seq<Delivery>)
    requires Reachable(s) && t < |s.readers| && s.readers[t].Idle? && t < |s.keys|
    requires IsFrame(stream, ids, data, MAX_MESSAGE_SIZE) && |junk| == |data|
    requires Unlocked(ids, s.registry, s.chans)
    requires c < |s.keys| && c < |s.chans| && c < |s.pumps| && c < |s.written|
    requires IsServed(s, t, ids, c) && s.pumps[c] == Recv
    ensures InRange(s) && ev == FrameIn(stream, Eof, junk) && ReadEnabled(s, t, ev) && s1 == Next(s, ReadStep(t, ev))
    ensures Reaches(s1, ReadStep(t, Go), s2) && InRange(s2) && Reaches(s2, PumpStep(c, true), s3)
    ensures c < |s3.written| && s3.written[c] == s.written[c] + ds && |ds| == |s.chans[c].queue| + 1
    ensures ds[|ds| - 1].bytes == Delivered(s.keys[t], |ids|, data)
    ensures Decode(ds[|ds| - 1].bytes) == Inbound(s.keys[t], data)
  {
    hide Reachable, Reaches, Next, ReadEnabled, InRange, Delivered, Decode;
    ev, s1, s2 := FrameGetsThrough(s, t, stream, ids, data, junk);
    assert s.keys[c] in ids && s.keys[c] != s.keys[t];
    s3, ds := Departure.QueueGetsOut(s2, c);
    DeliveredFields(s.keys[t], |ids|, data);
    DecodeAgreesWithMessage(Delivered(s.keys[t], |ids|, data));
  }
}
