/** The results about all reachable states of the relay. */
module Safety {
  import opened Wrappers
  import opened Wire
  import opened Message
  import opened Targets
  import opened Codec
  import opened Sequences
  import opened Folds
  import opened Model
  import opened Ownership
  import opened Locking
  import opened Content
  import opened Traffic
  import opened Invariant
  import Accounting

  // --- Memory ---

  /** No interleaving double-frees, retains or touches a freed buffer, sends on a closed
      channel, or closes a channel twice. */
  lemma NoFaults(s: State)
    requires Reachable(s)
    ensures s.fault == NoFault
  {
    hide Reachable;
    ReachableInv(s);
  }

  /** A step that touches a buffer finds it alive, and one that adds to a channel finds it open. */
  ghost predicate Sound(s: State, s': State) {
    && BufsSound(s.bufs, s'.bufs) && |s'.chans| >= |s.chans|
    && (forall c :: 0 <= c < |s.chans| && s'.chans[c].pushed != s.chans[c].pushed ==>
          !s.chans[c].isClosed && !s.chans[c].chanClosed)
    && (forall c :: 0 <= c < |s.chans| && s.chans[c].chanClosed ==> s'.chans[c].chanClosed)
  }

  /** The buffers before and after an operation on one that is held. */
  ghost predicate BufsSound(bufs: seq<Buf>, bufs': seq<Buf>) {
    && |bufs'| >= |bufs|
    && forall b :: 0 <= b < |bufs| && bufs'[b] != bufs[b] ==>
         !bufs[b].freed && bufs[b].refs > 0 && bufs'[b].refs >= 0 && bufs'[b].freed == (bufs'[b].refs == 0)
  }

  lemma OpIsSound(bufs: seq<Buf>, op: BufOp, holders: int)
    requires OpInRange(op, |bufs|)
    requires !op.NoOp? && !op.Alloc? ==> holders > 0 && CountIs(bufs, op.b, holders)
    ensures BufsSound(bufs, Bufs(bufs, op))
  {
  }

  lemma ReadIsSound(s: State, t: nat, m: ReadMove)
    requires InRange(s) && MemoryOk(s) && t < |s.readers| && ReadFacts(s, t, m)
    ensures Sound(s, ApplyRead(s, t, m))
  {
    hide Bufs, ReaderInRange, PumpInRange, QueueInRange, BufFault, RegistryAfter, AcceptedAfter, ConnOk, BufsSound,
      Accounting.ReadBooks, Occurrences, Gain, Loss, LocksCounted, SendersSafe;
    var holders := if m.op.NoOp? || m.op.Alloc? then 0 else Holders(s.readers, s.pumps, s.chans, m.op.b);
    if !m.op.NoOp? && !m.op.Alloc? {
      HeldByReader(s, t, m.op.b);
      assert CountIs(s.bufs, m.op.b, holders);
    }
    OpIsSound(s.bufs, m.op, holders);
    assert ConnOk(s.chans[m.dest], s.readers[m.dest], s.pumps[m.dest], s.cap);
    OpenOrShut(s.chans[m.dest], s.readers[m.dest], s.pumps[m.dest], s.cap);
  }

  lemma PumpIsSound(s: State, c: nat, m: PumpMove)
    requires InRange(s) && MemoryOk(s) && c < |s.pumps| && PumpFacts(s, c, m)
    ensures Sound(s, ApplyPump(s, c, m))
  {
    hide Bufs, ReaderInRange, PumpInRange, QueueInRange, BufFault, ConnsOk, BufsSound, PumpTraffic, Occurrences,
      Accounting.PumpBooks, Gain, Loss, LocksCounted, SendersSafe;
    var holders := if m.op.NoOp? then 0 else Holders(s.readers, s.pumps, s.chans, m.op.b);
    if !m.op.NoOp? {
      HeldByPump(s, c, m.op.b);
      assert CountIs(s.bufs, m.op.b, holders);
    }
    OpIsSound(s.bufs, m.op, holders);
  }

  /** Whatever the fault field records, no step of any run changes, releases or retains a buffer that
      has been freed, none sends on a closed channel, and no channel is opened again. */
  lemma StepsAreSound(s: State, step: Step)
    requires Reachable(s) && InRange(s) && Enabled(s, step)
    ensures Sound(s, Next(s, step))
  {
    hide Reachable, MemoryOk, ContentOk, BooksOk, MoveOf, PumpMoveOf, ReadFacts, PumpFacts, ApplyRead, ApplyPump;
    ReachableInv(s);
    match step
    case Accept(_) =>
    case WorkerStep =>
    case ReadStep(t, ev) =>
      ReadFactsOf(s, t, ev);
      ReadIsSound(s, t, MoveOf(s, t, ev));
    case PumpStep(c, writeOk) =>
      PumpFactsOf(s, c, writeOk);
      PumpIsSound(s, c, PumpMoveOf(s, c, writeOk));
  }

  lemma {:induction false} TallySingle<T>(xs: seq<T>, i: nat, f: T -> int)
    requires i < |xs| && forall j :: 0 <= j < |xs| && j != i ==> f(xs[j]) == 0
    ensures Tally(xs, f) == f(xs[i])
  {
    if i == |xs| - 1 {
      TallyZero(xs[..i], f);
    } else {
      TallySingle(xs[..|xs| - 1], i, f);
    }
  }

  /** Only the connection that allocated a buffer ever has it in its read loop. */
  lemma OnlyOwnerReads(s: State, b: nat)
    requires Inv(s) && b < |s.bufs|
    ensures s.bufs[b].from < |s.readers|
    ensures Tally(s.readers, ReadRefsTo(b)) == ReadRefs(s.readers[s.bufs[b].from], b)
  {
    hide MemoryOk, BooksOk, Traced, TailsOk, WritesOk, AcceptsOk, WorkOk;
    assert BufOk(s.bufs[b], s.keys);
    forall u | 0 <= u < |s.readers| && u != s.bufs[b].from ensures ReadRefsTo(b)(s.readers[u]) == 0 {
      assert ReaderOk(s.readers[u], u, s.bufs, s.keys);
    }
    TallySingle(s.readers, s.bufs[b].from, ReadRefsTo(b));
  }

  /** Conservation: a buffer's count is one for its own read loop while that has it in hand,
      one more while that loop's Retain is neither pushed nor undone, plus its occurrences in
      all queues, plus the pumps that have it in hand; it is freed exactly when none is left. */
  lemma RefsAreHolders(s: State, b: nat)
    requires Reachable(s) && b < |s.bufs|
    ensures s.bufs[b].from < |s.readers|
    ensures s.bufs[b].refs == ReadRefs(s.readers[s.bufs[b].from], b)
      + Tally(s.pumps, PumpRefsTo(b)) + Tally(s.chans, QueueRefsTo(b))
    ensures s.bufs[b].refs >= 0
    ensures s.bufs[b].freed <==> s.bufs[b].refs == 0
  {
    hide Reachable;
    ReachableInv(s);
    OnlyOwnerReads(s, b);
    TallyNonNegative(s.pumps, PumpRefsTo(b));
    TallyNonNegative(s.chans, QueueRefsTo(b));
    assert CountIs(s.bufs, b, Holders(s.readers, s.pumps, s.chans, b));
  }

  /** When a read loop is about to wipe the recipients, it holds the only reference there is. */
  lemma WipesExclusively(s: State, t: nat)
    requires Reachable(s) && t < |s.readers| && s.readers[t].Zeroing?
    ensures s.readers[t].buf < |s.bufs| && s.bufs[s.readers[t].buf].refs == 1
    ensures forall c :: 0 <= c < |s.chans| ==> s.readers[t].buf !in s.chans[c].queue
    ensures forall c :: 0 <= c < |s.pumps| ==> PumpRefs(s.pumps[c], s.readers[t].buf) == 0
    ensures forall u :: 0 <= u < |s.readers| && u != t ==> ReadRefs(s.readers[u], s.readers[t].buf) == 0
  {
    hide Reachable;
    ReachableInv(s);
    UnwipedCount(s, t);
    RefsAreHolders(s, s.readers[t].buf);
    TallyNonNegative(s.pumps, PumpRefsTo(s.readers[t].buf));
    TallyNonNegative(s.chans, QueueRefsTo(s.readers[t].buf));
    NobodyElseHolds(s, s.readers[t].buf, t);
  }

  lemma UnwipedCount(s: State, t: nat)
    requires BufsOk(s) && ReadersOk(s) && t < |s.readers| && s.readers[t].Zeroing?
    ensures InHand(s.readers[t]) == Some(s.readers[t].buf) && s.readers[t].buf < |s.bufs|
    ensures s.bufs[s.readers[t].buf].refs <= 1 && s.bufs[s.readers[t].buf].from == t
  {
    assert ReaderOk(s.readers[t], t, s.bufs, s.keys);
    assert BufOk(s.bufs[s.readers[t].buf], s.keys);
  }

  /** If one read loop's single reference is all there is, nobody else holds any. */
  lemma NobodyElseHolds(s: State, b: nat, t: nat)
    requires ReadersOk(s) && t < |s.readers| && InHand(s.readers[t]) == Some(b) && b < |s.bufs|
    requires Tally(s.pumps, PumpRefsTo(b)) + Tally(s.chans, QueueRefsTo(b)) == 0
    ensures forall c :: 0 <= c < |s.chans| ==> b !in s.chans[c].queue
    ensures forall c :: 0 <= c < |s.pumps| ==> PumpRefs(s.pumps[c], b) == 0
    ensures forall u :: 0 <= u < |s.readers| && u != t ==> ReadRefs(s.readers[u], b) == 0
  {
    TallyNonNegative(s.pumps, PumpRefsTo(b));
    TallyNonNegative(s.chans, QueueRefsTo(b));
    forall c | 0 <= c < |s.chans| ensures b !in s.chans[c].queue {
      TallyMember(s.chans, c, QueueRefsTo(b));
      OccurrencesPositive(s.chans[c].queue, b);
    }
    forall c | 0 <= c < |s.pumps| ensures PumpRefs(s.pumps[c], b) == 0 {
      TallyMember(s.pumps, c, PumpRefsTo(b));
    }
    assert ReaderOk(s.readers[t], t, s.bufs, s.keys);
    forall u | 0 <= u < |s.readers| && u != t ensures ReadRefs(s.readers[u], b) == 0 {
      assert ReaderOk(s.readers[u], u, s.bufs, s.keys);
    }
  }

  /** One step never changes content that is final, whoever takes it. */
  lemma StepKeepsFinal(s: State, step: Step, b: nat)
    requires Inv(s) && Enabled(s, step) && b < |s.bufs| && s.bufs[b].stage == Scrubbed
    ensures var s' := Next(s, step);
      b < |s'.bufs| && s'.bufs[b].stage == Scrubbed && s'.bufs[b].bytes == s.bufs[b].bytes
  {
    hide MemoryOk, BooksOk, Traced, TailsOk, WritesOk, AcceptsOk, LifeMove, FrameMove, RouteMove, PushMove, PumpMoveOf;
    match step
    case Accept(_) =>
    case WorkerStep =>
    case ReadStep(t, ev) =>
      ReadFactsOf(s, t, ev);
      OpKeepsOrigins(s, t, MoveOf(s, t, ev).op);
    case PumpStep(c, writeOk) =>
      PumpFactsOf(s, c, writeOk);
      PumpKeepsOrigins(s.bufs, PumpMoveOf(s, c, writeOk).op);
  }

  /** From the wipe to the end of the run, every later state shows the same bytes. */
  lemma {:induction false} FinalContentStays(s: State, steps: seq<Step>, b: nat)
    requires Inv(s) && CanRun(s, steps) && b < |s.bufs| && s.bufs[b].stage == Scrubbed
    ensures b < |Run(s, steps).bufs| && Run(s, steps).bufs[b].bytes == s.bufs[b].bytes
    decreases |steps|
  {
    hide MemoryOk, ContentOk, BooksOk, Next, Enabled;
    if steps != [] {
      StepKeepsFinal(s, steps[0], b);
      StepKeepsInv(s, steps[0]);
      FinalContentStays(Next(s, steps[0]), steps[1..], b);
    }
  }

  // --- Deliveries ---

  /** The bytes of a wiped buffer, in terms of the frame its sender sent. */
  lemma FinalContent(s: State, b: nat) returns (ids: seq<Id>, data: seq<byte>)
    requires Inv(s) && b < |s.bufs| && s.bufs[b].stage == Scrubbed
    ensures s.bufs[b].from < |s.keys| && IsFrame(s.bufs[b].stream, ids, data, MAX_MESSAGE_SIZE)
    ensures s.bufs[b].bytes == Delivered(s.keys[s.bufs[b].from], |ids|, data)
    ensures forall id :: id in For(s.keys, s.bufs[b]) <==> id in ids && id != s.keys[s.bufs[b].from]
  {
    assert BufOk(s.bufs[b], s.keys);
    ids, data :| IsFrame(s.bufs[b].stream, ids, data, MAX_MESSAGE_SIZE);
    ZeroedIsDelivered(s.keys[s.bufs[b].from], ids, data);
    RecipientsOfFrame(s.keys[s.bufs[b].from], ids, data);
  }

  /** What it means for a delivery on connection c to be legitimate. */
  ghost predicate Legitimate(s: State, c: nat, d: Delivery)
    requires c < |s.keys|
  {
    && d.buf < |s.bufs|
    && var x := s.bufs[d.buf];
       && x.from < |s.keys| && x.from < |s.accepted| && d.buf in s.accepted[x.from]
       && s.keys[c] != s.keys[x.from]
       && exists ids, data ::
            && IsFrame(x.stream, ids, data, MAX_MESSAGE_SIZE)
            && s.keys[c] in ids
            && d.bytes == Delivered(s.keys[x.from], |ids|, data)
  }

  /** Everything written anywhere comes from one accepted frame of another key's connection that
      names the recipient, and shows the sender's key, the recipient count, blanked recipients
      and the sender's data, byte for byte. */
  lemma DeliveriesLegitimate(s: State, c: nat, j: nat)
    requires Reachable(s) && c < |s.written| && j < |s.written[c]|
    ensures c < |s.keys| && Legitimate(s, c, s.written[c][j])
  {
    hide Reachable, MemoryOk, BooksOk, BufsOk, Recipients, For;
    ReachableInv(s);
    WrittenWasSent(s, c, j);
    var b := s.written[c][j].buf;
    var ids, data := FinalContent(s, b);
    SentWasAccepted(s, b);
  }

  /** What is written was sent, and shows its buffer's bytes. */
  lemma WrittenWasSent(s: State, c: nat, j: nat)
    requires WritesOk(s) && SendsOk(s) && c < |s.written| && j < |s.written[c]|
    ensures c < |s.keys| && SentOk(s, c, s.written[c][j].buf)
    ensures s.written[c][j].bytes == s.bufs[s.written[c][j].buf].bytes
  {
    var d := s.written[c][j];
    assert DeliveriesOk(s.written[c], s.chans[c], s.pumps[c], s.bufs);
    assert SentOk(s, c, s.chans[c].pushed[d.pos]);
  }

  lemma SentWasAccepted(s: State, b: nat)
    requires AcceptsOk(s) && b < |s.bufs| && s.bufs[b].stage == Scrubbed && s.bufs[b].from < |s.accepted|
    ensures b in s.accepted[s.bufs[b].from]
  {
    assert AcceptedOk(s.accepted[s.bufs[b].from], s.bufs[b].from, s.bufs);
  }

  /** No accepted frame is written twice for the same recipient key, even when connections under
      that key come and go while it is being distributed. */
  lemma AtMostOncePerKey(s: State, c: nat, i: nat, c': nat, i': nat)
    requires Reachable(s) && c < |s.written| && i < |s.written[c]| && c' < |s.written| && i' < |s.written[c']|
    requires (c, i) != (c', i') && s.written[c][i].buf == s.written[c'][i'].buf
    ensures c < |s.keys| && c' < |s.keys| && s.keys[c] != s.keys[c']
  {
    hide Reachable;
    ReachableInv(s);
    OnceByPosition(s, c, i, c', i');
  }

  lemma OnceByPosition(s: State, c: nat, i: nat, c': nat, i': nat)
    requires WritesOk(s) && SentOncePerKey(s)
    requires c < |s.written| && i < |s.written[c]| && c' < |s.written| && i' < |s.written[c']|
    requires (c != c' || i != i') && s.written[c][i].buf == s.written[c'][i'].buf
    ensures s.keys[c] != s.keys[c']
  {
    assert DeliveriesOk(s.written[c], s.chans[c], s.pumps[c], s.bufs);
    assert DeliveriesOk(s.written[c'], s.chans[c'], s.pumps[c'], s.bufs);
    var (p, p') := (s.written[c][i].pos, s.written[c'][i'].pos);
    assert s.chans[c].pushed[p] == s.chans[c'].pushed[p'];
  }

  /** The buffers written on c for frames of connection t, in the order of writing. */
  ghost function WrittenFrom(ds: seq<Delivery>, bufs: seq<Buf>, t: nat): seq<nat> {
    if ds == [] then [] else
    var (front, d) := (WrittenFrom(ds[..|ds| - 1], bufs, t), ds[|ds| - 1]);
    if d.buf < |bufs| && bufs[d.buf].from == t then front + [d.buf] else front
  }

  lemma {:induction false} WrittenFromMembers(ds: seq<Delivery>, bufs: seq<Buf>, t: nat, b: nat)
    requires b in WrittenFrom(ds, bufs, t)
    ensures b < |bufs| && bufs[b].from == t && exists j :: 0 <= j < |ds| && ds[j].buf == b
  {
    var front, d := ds[..|ds| - 1], ds[|ds| - 1];
    if b in WrittenFrom(front, bufs, t) {
      WrittenFromMembers(front, bufs, t, b);
      var j :| 0 <= j < |front| && front[j].buf == b;
      assert ds[j].buf == b;
    } else {
      assert ds[|ds| - 1].buf == b;
    }
  }

  /** Two deliveries of one sender's frames follow the order of the channel, hence of allocation. */
  lemma WrittenInOrder(s: State, c: nat, i: nat, j: nat)
    requires WritesOk(s) && SentInOrder(s) && c < |s.written| && i < j < |s.written[c]|
    requires s.written[c][i].buf < |s.bufs| && s.written[c][j].buf < |s.bufs|
    requires s.bufs[s.written[c][i].buf].from == s.bufs[s.written[c][j].buf].from
    ensures s.written[c][i].buf < s.written[c][j].buf
  {
    var ds := s.written[c];
    assert DeliveriesOk(ds, s.chans[c], s.pumps[c], s.bufs);
    assert ds[i].pos < ds[j].pos;
    assert s.chans[c].pushed[ds[i].pos] == ds[i].buf && s.chans[c].pushed[ds[j].pos] == ds[j].buf;
  }

  lemma {:induction false} WrittenFromIncreasing(s: State, c: nat, n: nat, t: nat)
    requires WritesOk(s) && SentInOrder(s) && c < |s.written| && n <= |s.written[c]|
    ensures Increasing(WrittenFrom(s.written[c][..n], s.bufs, t))
  {
    hide SentInOrder, WritesOk;
    if n > 0 {
      var front, last := s.written[c][..n - 1], s.written[c][n - 1];
      WrittenFromIncreasing(s, c, n - 1, t);
      assert s.written[c][..n][..n - 1] == front;
      if last.buf < |s.bufs| && s.bufs[last.buf].from == t {
        var xs := WrittenFrom(front, s.bufs, t);
        forall k | 0 <= k < |xs| ensures xs[k] < last.buf {
          WrittenFromMembers(front, s.bufs, t, xs[k]);
          var j :| 0 <= j < |front| && front[j].buf == xs[k];
          WrittenInOrder(s, c, j, n - 1);
        }
      }
    }
  }

  lemma WrittenWasAccepted(s: State, c: nat, t: nat, b: nat)
    requires WritesOk(s) && SendsOk(s) && AcceptsOk(s) && c < |s.written| && t < |s.accepted|
    requires b in WrittenFrom(s.written[c], s.bufs, t)
    ensures b in s.accepted[t]
  {
    WrittenFromMembers(s.written[c], s.bufs, t, b);
    var j :| 0 <= j < |s.written[c]| && s.written[c][j].buf == b;
    assert DeliveriesOk(s.written[c], s.chans[c], s.pumps[c], s.bufs);
    assert SentOk(s, c, s.chans[c].pushed[s.written[c][j].pos]);
    assert AcceptedOk(s.accepted[t], t, s.bufs);
  }

  /** Per-pair FIFO: what c gets of t's frames is, in order, a subsequence of what t had accepted. */
  lemma FifoPerPair(s: State, c: nat, t: nat)
    requires Reachable(s) && c < |s.written| && t < |s.accepted|
    ensures IsSubsequence(WrittenFrom(s.written[c], s.bufs, t), s.accepted[t])
  {
    hide Reachable, MemoryOk, BooksOk, WritesOk, SentInOrder, SendsOk, WrittenFrom, IsSubsequence;
    ReachableInv(s);
    var xs := WrittenFrom(s.written[c], s.bufs, t);
    WrittenFromIncreasing(s, c, |s.written[c]|, t);
    assert s.written[c][..|s.written[c]|] == s.written[c];
    assert AcceptedOk(s.accepted[t], t, s.bufs);
    forall b | b in xs ensures b in s.accepted[t] {
      WrittenWasAccepted(s, c, t, b);
    }
    IncreasingSubsequence(xs, s.accepted[t]);
  }

  // --- Bounds ---

  /** One buffer never has more references than recipients allow, so a 32-bit count cannot wrap. */
  lemma RefsBounded(s: State, b: nat)
    requires Reachable(s) && b < |s.bufs|
    ensures s.bufs[b].refs <= MAX_TARGETS + 1
  {
    hide Reachable;
    ReachableInv(s);
    assert BufOk(s.bufs[b], s.keys);
  }

  lemma QueuesBounded(s: State, c: nat)
    requires Reachable(s) && c < |s.chans|
    ensures |s.chans[c].queue| <= s.cap
  {
    hide Reachable;
    ReachableInv(s);
    assert ConnOk(s.chans[c], s.readers[c], s.pumps[c], s.cap);
  }

  /** Both goroutines of a connection have ended. */
  predicate Finished(r: ReadLoop, p: Pump) {
    r.Ended? && p.Stopped?
  }

  ghost function Elements(q: seq<nat>): (s: set<nat>)
    ensures |s| <= |q|
    ensures forall b :: b in q ==> b in s
  {
    if q == [] then {} else Elements(q[..|q| - 1]) + {q[|q| - 1]}
  }

  /** The buffers a connection's own goroutines have in hand. */
  ghost function InHands(r: ReadLoop, p: Pump): (s: set<nat>)
    ensures |s| <= 2
  {
    (if InHand(r).Some? then {InHand(r).value} else {})
    + (if p.Writing? || p.Freeing? || p.DrainFreeing? then {p.buf} else {})
  }

  /** The buffers one connection can keep alive. */
  ghost function Kept(r: ReadLoop, p: Pump, ch: Chan): set<nat> {
    InHands(r, p) + Elements(ch.queue)
  }

  lemma KeptCount(r: ReadLoop, p: Pump, ch: Chan, cap: nat)
    requires ConnOk(ch, r, p, cap)
    ensures |Kept(r, p, ch)| <= if Finished(r, p) then 0 else cap + 2
  {
    UnionCount(InHands(r, p), Elements(ch.queue));
    if Finished(r, p) {
      assert Kept(r, p, ch) == {};
    }
  }

  lemma UnionCount(a: set<nat>, b: set<nat>)
    ensures |a + b| <= |a| + |b|
  {
    assert |a + b| + |a * b| == |a| + |b|;
  }

  ghost function KeptByFirst(s: State, n: nat): set<nat>
    requires n <= |s.readers| == |s.pumps| == |s.chans|
  {
    if n == 0 then {} else KeptByFirst(s, n - 1) + Kept(s.readers[n - 1], s.pumps[n - 1], s.chans[n - 1])
  }

  function Unfinished(s: State, n: nat): nat
    requires n <= |s.readers| == |s.pumps|
  {
    if n == 0 then 0 else Unfinished(s, n - 1) + if Finished(s.readers[n - 1], s.pumps[n - 1]) then 0 else 1
  }

  /** What one more connection adds. */
  lemma NextKeeps(s: State, n: nat)
    requires ConnsOk(s) && n < |s.readers|
    ensures |KeptByFirst(s, n + 1)| <= |KeptByFirst(s, n)| +
      if Finished(s.readers[n], s.pumps[n]) then 0 else s.cap + 2
  {
    assert ConnOk(s.chans[n], s.readers[n], s.pumps[n], s.cap);
    KeptCount(s.readers[n], s.pumps[n], s.chans[n], s.cap);
    UnionCount(KeptByFirst(s, n), Kept(s.readers[n], s.pumps[n], s.chans[n]));
  }

  /** k for each of the first n connections that is not finished. */
  function Allowance(s: State, n: nat, k: nat): nat
    requires n <= |s.readers| == |s.pumps|
  {
    if n == 0 then 0 else Allowance(s, n - 1, k) + if Finished(s.readers[n - 1], s.pumps[n - 1]) then 0 else k
  }

  lemma NothingKept(s: State)
    requires |s.readers| == |s.pumps| == |s.chans|
    ensures KeptByFirst(s, 0) == {}
  {
  }

  lemma {:induction false} KeptByFirstCount(s: State, n: nat)
    requires ConnsOk(s) && n <= |s.readers|
    ensures |KeptByFirst(s, n)| <= Allowance(s, n, s.cap + 2)
  {
    hide ConnOk, Finished, Kept, KeptByFirst;
    if n == 0 {
      NothingKept(s);
    } else {
      KeptByFirstCount(s, n - 1);
      NextKeeps(s, n - 1);
    }
  }

  lemma {:induction false} AllowanceIs(s: State, n: nat, k: nat)
    requires n <= |s.readers| == |s.pumps|
    ensures Allowance(s, n, k) == Unfinished(s, n) * k
  {
    hide Finished;
    if n > 0 {
      AllowanceIs(s, n - 1, k);
      OneMore(Unfinished(s, n - 1), k);
    }
  }

  lemma OneMore(n: nat, k: nat)
    ensures (n + 1) * k == n * k + k
  {
  }

  lemma {:induction false} KeptByFirstHas(s: State, n: nat, c: nat, b: nat)
    requires c < n <= |s.readers| == |s.pumps| == |s.chans| && b in Kept(s.readers[c], s.pumps[c], s.chans[c])
    ensures b in KeptByFirst(s, n)
  {
    hide Kept;
    if c < n - 1 {
      KeptByFirstHas(s, n - 1, c, b);
    }
  }

  ghost function Live(s: State): set<nat> {
    set b | 0 <= b < |s.bufs| && s.bufs[b].refs > 0
  }

  lemma LiveIsKept(s: State, b: nat)
    requires Conserved(s) && |s.readers| == |s.pumps| == |s.chans| && b in Live(s)
    ensures b in KeptByFirst(s, |s.readers|)
  {
    assert CountIs(s.bufs, b, Holders(s.readers, s.pumps, s.chans, b));
    var c: nat;
    if Tally(s.readers, ReadRefsTo(b)) > 0 {
      c := TallySource(s.readers, ReadRefsTo(b));
    } else if Tally(s.pumps, PumpRefsTo(b)) > 0 {
      c := TallySource(s.pumps, PumpRefsTo(b));
    } else {
      c := TallySource(s.chans, QueueRefsTo(b));
      OccurrencesPositive(s.chans[c].queue, b);
    }
    KeptByFirstHas(s, |s.readers|, c, b);
  }

  /** Bounded memory: at most cap + 2 live buffers per connection that is not finished. */
  lemma LiveBounded(s: State)
    requires Reachable(s)
    ensures |s.readers| == |s.pumps| && |Live(s)| <= Unfinished(s, |s.readers|) * (s.cap + 2)
  {
    hide Reachable;
    ReachableInv(s);
    KeptByFirstCount(s, |s.readers|);
    AllowanceIs(s, |s.readers|, s.cap + 2);
    forall b | b in Live(s) ensures b in KeptByFirst(s, |s.readers|) {
      LiveIsKept(s, b);
    }
    SubsetCount(Live(s), KeptByFirst(s, |s.readers|));
  }

  lemma SubsetCount(a: set<nat>, b: set<nat>)
    requires a <= b
    ensures |a| <= |b|
  {
    assert b == a + (b - a);
  }

  /** A buffer that no read loop, pump or queue refers to has been freed. */
  lemma UnheldIsFreed(s: State, b: nat)
    requires Conserved(s) && b < |s.bufs|
    requires forall t :: 0 <= t < |s.readers| ==> ReadRefs(s.readers[t], b) == 0
    requires forall c :: 0 <= c < |s.pumps| ==> PumpRefs(s.pumps[c], b) == 0
    requires forall c :: 0 <= c < |s.chans| ==> s.chans[c].queue == []
    ensures s.bufs[b].refs == 0 && s.bufs[b].freed
  {
    hide ReadRefs, PumpRefs;
    TallyZero(s.readers, ReadRefsTo(b));
    TallyZero(s.pumps, PumpRefsTo(b));
    TallyZero(s.chans, QueueRefsTo(b));
    assert CountIs(s.bufs, b, Holders(s.readers, s.pumps, s.chans, b));
  }

  /** No leak: once all goroutines have ended, every buffer ever allocated has been freed. */
  lemma NoLeakAtQuiescence(s: State)
    requires Reachable(s)
    requires forall c :: 0 <= c < |s.readers| && c < |s.pumps| ==> Finished(s.readers[c], s.pumps[c])
    ensures forall b :: 0 <= b < |s.bufs| ==> s.bufs[b].refs == 0 && s.bufs[b].freed
  {
    hide Reachable, ContentOk, BooksOk, Conserved;
    ReachableInv(s);
    forall c | 0 <= c < |s.chans| ensures s.readers[c].Ended? && s.pumps[c].Stopped? && s.chans[c].queue == [] {
      assert ConnOk(s.chans[c], s.readers[c], s.pumps[c], s.cap) && Finished(s.readers[c], s.pumps[c]);
    }
    forall b | 0 <= b < |s.bufs| ensures s.bufs[b].refs == 0 && s.bufs[b].freed {
      UnheldIsFreed(s, b);
    }
  }
}
