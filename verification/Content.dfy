/** What the buffers carry, and where they have been sent. */
module Content {
  import opened Wrappers
  import opened Wire
  import opened Message
  import opened Targets
  import opened Codec
  import opened Parser
  import opened Model

  /** Whom a buffer of connection t is for, by the frame it was filled with. */
  function For(keys: seq<Id>, x: Buf): (ids: seq<Id>)
    requires x.from < |keys|
    ensures |ids| <= MAX_TARGETS
  {
    Recipients(keys[x.from] + x.stream, keys[x.from])
  }

  /** A buffer's bytes are a function of the stream it was filled from and of its stage. */
  ghost predicate BufOk(x: Buf, keys: seq<Id>) {
    && x.from < |keys|
    && (x.stage == Raw || x.stage == Scrubbed ==> InGrammar(x.stream, MAX_MESSAGE_SIZE))
    && (x.stage == Raw ==> x.bytes == keys[x.from] + x.stream)
    && (x.stage == Scrubbed ==> x.bytes == Zeroed(keys[x.from] + x.stream))
    && (x.stage != Scrubbed ==> x.retains == 0)
    && x.retains <= MAX_TARGETS
    && x.refs <= 1 + x.retains
  }

  ghost predicate BufsOk(s: State) {
    forall b :: 0 <= b < |s.bufs| ==> BufOk(s.bufs[b], s.keys)
  }

  /** Retain has been called for the target the loop is at. */
  predicate Retained(at: At) {
    !at.AtLookup? && !at.AtRetain?
  }

  /** How many targets the loop has behind it, the one just served included. */
  function Served(w: Work, at: At): nat {
    if at.AtUnlock? && at.ok then w.i + 1 else w.i
  }

  /** The buffer a read loop works on, if any. */
  function InHand(r: ReadLoop): Option<nat> {
    match r
    case Handling(w, _) => Some(w.buf)
    case Filling(b, _) => Some(b)
    case Received(b) => Some(b)
    case Counting(b, _) => Some(b)
    case Zeroing(b, _) => Some(b)
    case Finishing(b) => Some(b)
    case _ => None
  }

  /** The state of the buffer in hand at each program point. */
  ghost predicate WorkOk(r: ReadLoop, x: Buf, keys: seq<Id>)
    requires x.from < |keys|
  {
    match r
    case Filling(_, _) => x.stage == Reading
    case Received(_) => x.stage == Raw
    case Counting(_, targets) => x.stage == Raw && targets == For(keys, x) && targets != []
    case Zeroing(_, targets) => x.stage == Raw && targets == For(keys, x) && targets != []
    case Handling(w, at) =>
      && x.stage == Scrubbed && w.targets == For(keys, x) && Distinct(w.targets)
      && w.matched <= w.i <= |w.targets| && (!at.AtLookup? ==> w.i < |w.targets|)
      && x.retains <= w.i + (if Retained(at) then 1 else 0)
      && (at.AtRetain? || InPush(at) ==> at.dest < |keys| && keys[at.dest] == w.targets[w.i])
    case Finishing(_) => x.stage == Raw || x.stage == Scrubbed
    case _ => true
  }

  /** The buffer in hand is the loop's own and its newest. */
  ghost predicate ReaderOk(r: ReadLoop, t: nat, bufs: seq<Buf>, keys: seq<Id>) {
    var b := InHand(r);
    b.Some? ==>
      && b.value < |bufs| && t < |keys| && bufs[b.value].from == t
      && WorkOk(r, bufs[b.value], keys)
      && forall x :: 0 <= x < |bufs| && bufs[x].from == t ==> x <= b.value
  }

  ghost predicate ReadersOk(s: State) {
    forall t :: 0 <= t < |s.readers| ==> ReaderOk(s.readers[t], t, s.bufs, s.keys)
  }

  predicate KeysMatch(s: State) {
    forall k :: k in s.registry ==> s.registry[k] < |s.keys| && s.keys[s.registry[k]] == k
  }

  /** Grammar membership gives distinct recipients. */
  lemma ForDistinct(x: Buf, keys: seq<Id>)
    requires BufOk(x, keys) && (x.stage == Raw || x.stage == Scrubbed)
    ensures Distinct(For(keys, x))
    ensures keys[x.from] !in For(keys, x)
  {
    var ids, data :| IsFrame(x.stream, ids, data, MAX_MESSAGE_SIZE);
    RecipientsOfFrame(keys[x.from], ids, data);
  }

  // --- What a step does to contents ---

  ghost predicate OpContent(s: State, t: nat, op: BufOp)
    requires t < |s.keys| && OpInRange(op, |s.bufs|)
  {
    match op
    case NoOp => true
    case Alloc(x) => x.from == t && x.stage == Reading && x.retains == 0 && x.refs == 1
    case Read(_) => true
    case Write(b, bytes, stage) =>
      && s.bufs[b].from == t
      && if stage == Raw then
           s.bufs[b].stage == Reading && InGrammar(s.bufs[b].stream, MAX_MESSAGE_SIZE)
           && bytes == s.keys[t] + s.bufs[b].stream
         else
           stage == Scrubbed && s.bufs[b].stage == Raw && bytes == Zeroed(s.bufs[b].bytes)
    case Retain(b) => s.bufs[b].from == t && s.bufs[b].stage == Scrubbed && s.bufs[b].retains < MAX_TARGETS
    case Release(b) => s.bufs[b].from == t
    case Reject(b) => s.bufs[b].from == t && s.bufs[b].stage == Reading
  }

  /** A step of a read loop keeps its buffer in hand or takes a fresh one, and sends nothing
      but the buffer it is distributing. */
  ghost predicate ReadContent(s: State, t: nat, m: ReadMove)
    requires InRange(s) && t < |s.keys| && ReadMoveInRange(s, m)
  {
    var (r, ch) := (s.readers[t], s.chans[m.dest]);
    && OpContent(s, t, m.op)
    && (m.op.Write? ==> InHand(r) == Some(m.op.b))
    && ReaderOk(m.next, t, Bufs(s.bufs, m.op), s.keys)
    && (m.next.Handling? ==>
          InHand(r) == Some(m.next.w.buf)
          && if r.Handling? then r.w.targets == m.next.w.targets && Served(r.w, r.at) <= Served(m.next.w, m.next.at)
             else r.Zeroing?)
    && ((m.chan.pushed == ch.pushed && m.chan.queue == ch.queue) || Sends(s, t, m))
  }

  ghost predicate Sends(s: State, t: nat, m: ReadMove)
    requires t < |s.readers| && m.dest < |s.chans|
  {
    var (r, ch) := (s.readers[t], s.chans[m.dest]);
    && r.Handling? && r.at == AtSend(m.dest)
    && m.next == Handling(r.w, AtUnlock(m.dest, true))
    && m.chan == ch.(queue := ch.queue + [r.w.buf], pushed := ch.pushed + [r.w.buf])
    && m.op == NoOp
  }

  lemma LifeContent(s: State, t: nat, ev: Event)
    requires InRange(s) && ReadEnabled(s, t, ev) && !s.readers[t].Handling? && !OnFrame(s.readers[t])
    requires ReadersOk(s) && BufsOk(s) && ReadMoveInRange(s, LifeMove(s, t, ev))
    ensures ReadContent(s, t, LifeMove(s, t, ev))
  {
    hide Recipients, PumpInRange, QueueInRange, ReaderInRange, InGrammar, BufOk, DataLen;
    assert ReaderOk(s.readers[t], t, s.bufs, s.keys);
  }

  lemma FillContent(s: State, t: nat, stalled: bool)
    requires InRange(s) && t < |s.readers| && s.readers[t].Filling?
    requires ReadersOk(s) && BufsOk(s) && ReadMoveInRange(s, FrameMove(s, t, stalled))
    ensures ReadContent(s, t, FrameMove(s, t, stalled))
  {
    hide InGrammar, ReachesProbe, Parse, PumpInRange, QueueInRange;
    var r := s.readers[t];
    assert ReaderOk(r, t, s.bufs, s.keys) && ReaderInRange(r, |s.bufs|, |s.keys|);
    AcceptsExactlyTheGrammar(s.keys[t], s.bufs[r.buf].stream, r.end, MAX_MESSAGE_SIZE);
  }

  lemma ZeroContent(s: State, t: nat, stalled: bool)
    requires InRange(s) && t < |s.readers| && s.readers[t].Zeroing?
    requires ReadersOk(s) && BufsOk(s) && ReadMoveInRange(s, FrameMove(s, t, stalled))
    ensures ReadContent(s, t, FrameMove(s, t, stalled))
  {
    hide InGrammar, Verdict, Zeroed, Recipients, PumpInRange, QueueInRange;
    var r := s.readers[t];
    assert ReaderOk(r, t, s.bufs, s.keys) && ReaderInRange(r, |s.bufs|, |s.keys|);
    assert BufOk(s.bufs[r.buf], s.keys);
    ForDistinct(s.bufs[r.buf], s.keys);
  }

  lemma FrameContent(s: State, t: nat, stalled: bool)
    requires InRange(s) && t < |s.readers| && OnFrame(s.readers[t])
    requires ReadersOk(s) && BufsOk(s) && ReadMoveInRange(s, FrameMove(s, t, stalled))
    ensures ReadContent(s, t, FrameMove(s, t, stalled))
  {
    hide InGrammar, Verdict, Zeroed, Recipients, PumpInRange, QueueInRange;
    var r := s.readers[t];
    if r.Filling? {
      FillContent(s, t, stalled);
    } else if r.Zeroing? {
      ZeroContent(s, t, stalled);
    } else {
      assert ReaderOk(r, t, s.bufs, s.keys) && ReaderInRange(r, |s.bufs|, |s.keys|);
      assert BufOk(s.bufs[InHand(r).value], s.keys);
    }
  }

  lemma LookupContent(s: State, t: nat)
    requires InRange(s) && t < |s.readers| && OnRoute(s.readers[t]) && s.readers[t].at.AtLookup?
    requires ReadersOk(s) && KeysMatch(s) && ReadMoveInRange(s, RouteMove(s, t))
    ensures ReadContent(s, t, RouteMove(s, t))
  {
    hide BufOk, Recipients, PumpInRange, QueueInRange;
    assert ReaderOk(s.readers[t], t, s.bufs, s.keys);
  }

  lemma RouteContent(s: State, t: nat)
    requires InRange(s) && t < |s.readers| && OnRoute(s.readers[t])
    requires ReadersOk(s) && KeysMatch(s) && ReadMoveInRange(s, RouteMove(s, t))
    ensures ReadContent(s, t, RouteMove(s, t))
  {
    hide BufOk, Recipients, PumpInRange, QueueInRange;
    assert ReaderOk(s.readers[t], t, s.bufs, s.keys);
    if s.readers[t].at.AtLookup? {
      LookupContent(s, t);
    }
  }

  /** Moving on inside SafePush leaves the work in hand as it was. */
  lemma SameWork(r: ReadLoop, r': ReadLoop, t: nat, bufs: seq<Buf>, keys: seq<Id>)
    requires ReaderOk(r, t, bufs, keys) && r.Handling? && r'.Handling?
    requires r'.w == r.w && InPush(r.at)
    requires (InPush(r'.at) && r'.at.dest == r.at.dest) || r'.at.AtUndo?
    ensures ReaderOk(r', t, bufs, keys)
  {
  }

  lemma SendContent(s: State, t: nat)
    requires InRange(s) && t < |s.readers| && OnPush(s.readers[t]) && s.readers[t].at.AtSend?
    requires ReadersOk(s) && ReadMoveInRange(s, PushMove(s, t))
    ensures ReadContent(s, t, PushMove(s, t))
  {
    hide Recipients, PumpInRange, QueueInRange;
    var m := PushMove(s, t);
    assert ReaderOk(s.readers[t], t, s.bufs, s.keys);
    SameWork(s.readers[t], m.next, t, s.bufs, s.keys);
  }

  lemma PushContent(s: State, t: nat)
    requires InRange(s) && t < |s.readers| && OnPush(s.readers[t])
    requires ReadersOk(s) && BufsOk(s) && ReadMoveInRange(s, PushMove(s, t))
    ensures ReadContent(s, t, PushMove(s, t))
  {
    hide BufOk, Recipients, PumpInRange, QueueInRange;
    var r := s.readers[t];
    assert ReaderOk(r, t, s.bufs, s.keys);
    if r.at.AtSend? {
      SendContent(s, t);
    } else if !(r.at.AtUnlock? && r.at.ok) {
      SameWork(r, PushMove(s, t).next, t, s.bufs, s.keys);
    }
  }

  lemma ReadContentOf(s: State, t: nat, ev: Event)
    requires InRange(s) && ReadEnabled(s, t, ev) && ReadMoveInRange(s, MoveOf(s, t, ev))
    requires ReadersOk(s) && BufsOk(s) && KeysMatch(s)
    ensures ReadContent(s, t, MoveOf(s, t, ev))
  {
    if OnRoute(s.readers[t]) {
      RouteContent(s, t);
    } else if OnPush(s.readers[t]) {
      PushContent(s, t);
    } else if OnFrame(s.readers[t]) {
      FrameContent(s, t, ev.Stalled?);
    } else {
      LifeContent(s, t, ev);
    }
  }

  lemma BufsAfterOp(bufs: seq<Buf>, op: BufOp, s: State, t: nat)
    requires bufs == s.bufs && t < |s.keys| && OpInRange(op, |bufs|) && BufsOk(s) && OpContent(s, t, op)
    ensures forall b :: 0 <= b < |Bufs(bufs, op)| ==> BufOk(Bufs(bufs, op)[b], s.keys)
  {
    forall b | 0 <= b < |Bufs(bufs, op)| ensures BufOk(Bufs(bufs, op)[b], s.keys) {
      if b < |bufs| {
        assert BufOk(bufs[b], s.keys);
      }
    }
  }

  lemma ReadersAfterRead(s: State, t: nat, m: ReadMove)
    requires InRange(s) && t < |s.readers| && ReadMoveInRange(s, m) && ReadersOk(s) && ReadContent(s, t, m)
    ensures ReadersOk(ApplyRead(s, t, m))
  {
    hide ReaderInRange, PumpInRange, QueueInRange, BufFault, RegistryAfter, AcceptedAfter;
    var s' := ApplyRead(s, t, m);
    forall u | 0 <= u < |s'.readers| ensures ReaderOk(s'.readers[u], u, s'.bufs, s'.keys) {
      assert ReaderOk(s.readers[u], u, s.bufs, s.keys);
    }
  }

  /** Release by a pump changes no content. */
  lemma ReadersAfterPump(s: State, c: nat, m: PumpMove)
    requires InRange(s) && c < |s.pumps| && PumpMoveInRange(s, m) && ReadersOk(s) && BufsOk(s)
    requires m.op.NoOp? || m.op.Read? || m.op.Release?
    ensures ReadersOk(ApplyPump(s, c, m)) && BufsOk(ApplyPump(s, c, m))
  {
    hide ReaderInRange, PumpInRange, QueueInRange, BufFault, BufOk;
    var s' := ApplyPump(s, c, m);
    forall u | 0 <= u < |s'.readers| ensures ReaderOk(s'.readers[u], u, s'.bufs, s'.keys) {
      assert ReaderOk(s.readers[u], u, s.bufs, s.keys);
    }
    BufsAfterPump(s, c, m);
  }

  lemma BufsAfterPump(s: State, c: nat, m: PumpMove)
    requires InRange(s) && c < |s.pumps| && PumpMoveInRange(s, m) && BufsOk(s)
    requires m.op.NoOp? || m.op.Read? || m.op.Release?
    ensures BufsOk(ApplyPump(s, c, m))
  {
    hide ReaderInRange, PumpInRange, QueueInRange, BufFault;
    var s' := ApplyPump(s, c, m);
    forall b | 0 <= b < |s'.bufs| ensures BufOk(s'.bufs[b], s'.keys) {
      assert BufOk(s.bufs[b], s.keys);
    }
  }

  lemma ContentAfterAccept(s: State, key: Id)
    requires InRange(s) && ReadersOk(s) && BufsOk(s)
    ensures ReadersOk(ApplyAccept(s, key)) && BufsOk(ApplyAccept(s, key))
  {
    var s' := ApplyAccept(s, key);
    forall b | 0 <= b < |s'.bufs| ensures BufOk(s'.bufs[b], s'.keys) {
      assert BufOk(s.bufs[b], s.keys);
    }
    forall u | 0 <= u < |s'.readers| ensures ReaderOk(s'.readers[u], u, s'.bufs, s'.keys) {
      if u < |s.readers| {
        assert ReaderOk(s.readers[u], u, s.bufs, s.keys);
      }
    }
  }
}
