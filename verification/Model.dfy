/** The relay as an interleaving of atomic steps: one read loop and one write pump per
    connection, sharing buffers, queues, locks, the registry and the counters. */
module Model {
  import opened Wrappers
  import opened Wire
  import opened Message
  import opened Targets
  import opened Codec
  import opened Parser

  /** Where a buffer's content stands: being filled, as parsed, recipients wiped, or given up. */
  datatype Stage = Reading | Raw | Scrubbed | Failed

  /** A reference-counted buffer. From refs on the fields are what Go keeps; retains, from,
      stream and stage record its history: how often it was retained, which connection
      allocated it, and for which inbound stream. */
  datatype Buf = Buf(bytes: seq<byte>, refs: int, freed: bool, retains: nat, from: nat, stream: seq<byte>, stage: Stage)

  /** A connector's channel and lock; pushed is the history of all successful sends. */
  datatype Chan = Chan(queue: seq<nat>, isClosed: bool, chanClosed: bool, rlocks: int, writer: bool, pushed: seq<nat>)

  /** Program points of WSConnector.Close. RWMutex.Lock first announces itself, which shuts out new
      readers and other writers (Locking), and then waits for the readers inside (Waiting). */
  datatype Phase = Locking | Waiting | Testing | Marking | ClosingChan | Unlocking

  /** The locals of one HandleMessage call inside its target loop. */
  datatype Work = Work(buf: nat, targets: seq<Id>, i: nat, matched: nat)

  /** Program points of the target loop, DeliverTo and SafePush. */
  datatype At =
    | AtLookup
    | AtRetain(dest: nat)
    | AtLock(dest: nat)
    | AtTest(dest: nat)
    | AtSend(dest: nat)
    | AtUnlock(dest: nat, ok: bool)
    | AtUndo
    | AtCount

  /** Program points of a connection's own goroutine: OnConnect, the read loop, the deferred calls. */
  datatype ReadLoop =
    | Fresh
    | AddPending
    | Starting
    | Idle
    | Filling(buf: nat, end: End)
    | Received(buf: nat)
    | Counting(buf: nat, targets: seq<Id>)
    | Zeroing(buf: nat, targets: seq<Id>)
    | Handling(w: Work, at: At)
    | Finishing(buf: nat)
    | Disconnecting
    | SubPending
    | Closing(phase: Phase)
    | Ended

  /** Program points of a connection's write pump. */
  datatype Pump =
    | Unstarted
    | Recv
    | Writing(buf: nat)
    | Freeing(buf: nat, ok: bool)
    | Reporting(ok: bool)
    | Recording
    | PumpClosing(phase: Phase)
    | Draining
    | DrainFreeing(buf: nat)
    | Stopped

  /** One successful conn.Write: the message, its position in the channel's history, the bytes. */
  datatype Delivery = Delivery(buf: nat, pos: int, bytes: seq<byte>)

  /** The counters of the relayer with the fill of its latency channel, then counts of events
      that happened. */
  datatype Stats = Stats(
    connCount: int, processed: nat, delivered: nat, noRecip: nat, latencyCount: nat, latencyQueued: nat,
    pushes: nat, dropped: nat, zeroMatch: nat, writeFails: nat, drained: nat, extra: nat, latencyDropped: nat)

  /** The latency worker waits at its channel or has a measurement in hand. */
  datatype Worker = Ranging | Booking

  /** What a Go process would die of, or worse. */
  datatype Fault = NoFault | DoubleFree | RetainFreed | UseAfterFree | SendOnClosed | CloseOfClosed

  /** Connections are numbered in order of acceptance; the per-connection sequences run in parallel. */
  datatype State = State(
    cap: nat,
    keys: seq<Id>,
    chans: seq<Chan>,
    readers: seq<ReadLoop>,
    pumps: seq<Pump>,
    written: seq<seq<Delivery>>,
    accepted: seq<seq<nat>>,
    bufs: seq<Buf>,
    registry: map<Id, nat>,
    lastSwap: map<Id, nat>,
    gone: set<nat>,
    stats: Stats,
    worker: Worker,
    fault: Fault)

  /** What the network does to a read loop at its next step. */
  datatype Event = Go | NetError | Text | FrameIn(stream: seq<byte>, end: End, junk: seq<byte>) | Stalled

  datatype Step = Accept(key: Id) | ReadStep(t: nat, ev: Event) | PumpStep(c: nat, writeOk: bool) | WorkerStep

  function Init(outBufSize: int): State {
    State(EffectiveCap(outBufSize), [], [], [], [], [], [], [], map[], map[], {},
      Stats(0, 0, 0, 0, 0, 0, 0, 0, 0, 0, 0, 0, 0), Ranging, NoFault)
  }

  // --- Indices in range ---

  predicate ReaderInRange(r: ReadLoop, bufs: nat, chans: nat) {
    match r
    case Filling(b, _) => b < bufs
    case Received(b) => b < bufs
    case Counting(b, _) => b < bufs
    case Zeroing(b, _) => b < bufs
    case Finishing(b) => b < bufs
    case Handling(w, at) =>
      && w.buf < bufs && w.i <= |w.targets|
      && (at != AtLookup ==> w.i < |w.targets|)
      && (at.AtRetain? || at.AtLock? || at.AtTest? || at.AtSend? || at.AtUnlock? ==> at.dest < chans)
    case _ => true
  }

  predicate PumpInRange(p: Pump, bufs: nat) {
    p.Writing? || p.Freeing? || p.DrainFreeing? ==> p.buf < bufs
  }

  predicate QueueInRange(q: seq<nat>, bufs: nat) {
    forall j :: 0 <= j < |q| ==> q[j] < bufs
  }

  predicate InRange(s: State) {
    && |s.chans| == |s.readers| == |s.pumps| == |s.written| == |s.accepted| == |s.keys|
    && (forall t :: 0 <= t < |s.readers| ==> ReaderInRange(s.readers[t], |s.bufs|, |s.keys|))
    && (forall c :: 0 <= c < |s.pumps| ==> PumpInRange(s.pumps[c], |s.bufs|))
    && (forall c :: 0 <= c < |s.chans| ==> QueueInRange(s.chans[c].queue, |s.bufs|))
    && (forall k :: k in s.registry ==> s.registry[k] < |s.keys|)
  }

  // --- What a step may do to the shared state ---

  /** Operations on buffers; Read and Write touch the bytes, Reject gives up a half-filled buffer. */
  datatype BufOp =
    | NoOp
    | Alloc(x: Buf)
    | Read(b: nat)
    | Write(b: nat, bytes: seq<byte>, stage: Stage)
    | Retain(b: nat)
    | Release(b: nat)
    | Reject(b: nat)

  predicate OpInRange(op: BufOp, bufs: nat) {
    match op
    case NoOp => true
    case Alloc(_) => true
    case _ => op.b < bufs
  }

  function Bufs(bufs: seq<Buf>, op: BufOp): (bufs': seq<Buf>)
    requires OpInRange(op, |bufs|)
    ensures |bufs'| == |bufs| + if op.Alloc? then 1 else 0
  {
    match op
    case NoOp => bufs
    case Read(_) => bufs
    case Alloc(x) => bufs + [x]
    case Write(b, bytes, stage) => bufs[b := bufs[b].(bytes := bytes, stage := stage)]
    case Retain(b) => bufs[b := bufs[b].(refs := bufs[b].refs + 1, retains := bufs[b].retains + 1)]
    case Release(b) => bufs[b := Released(bufs[b])]
    case Reject(b) => bufs[b := Released(bufs[b]).(stage := Failed)]
  }

  function Released(x: Buf): Buf {
    x.(refs := x.refs - 1, freed := x.freed || x.refs == 1)
  }

  function BufFault(bufs: seq<Buf>, op: BufOp): Fault
    requires OpInRange(op, |bufs|)
  {
    match op
    case NoOp => NoFault
    case Alloc(_) => NoFault
    case Read(b) => if bufs[b].freed then UseAfterFree else NoFault
    case Write(b, _, _) => if bufs[b].freed then UseAfterFree else NoFault
    case Retain(b) => if bufs[b].refs <= 0 then RetainFreed else NoFault
    case Release(b) => if bufs[b].refs <= 0 then DoubleFree else NoFault
    case Reject(b) => if bufs[b].freed then UseAfterFree else if bufs[b].refs <= 0 then DoubleFree else NoFault
  }

  /** The two operations on the registry, under the acting connection's key. */
  datatype RegOp = NoReg | Swap | CompareAndDelete

  function Worse(f: Fault, g: Fault): Fault {
    if f == NoFault then g else f
  }

  /** One step of Close; None means that it has returned. */
  function CloseStep(ch: Chan, phase: Phase): (Chan, Option<Phase>) {
    match phase
    case Locking => (ch.(writer := true), Some(Waiting))
    case Waiting => (ch, Some(Testing))
    case Testing => (ch, Some(if ch.isClosed then Unlocking else Marking))
    case Marking => (ch.(isClosed := true), Some(ClosingChan))
    case ClosingChan => (ch.(chanClosed := true), Some(Unlocking))
    case Unlocking => (ch.(writer := false), None)
  }

  function CloseFault(ch: Chan, phase: Phase): Fault {
    if phase == ClosingChan && ch.chanClosed then CloseOfClosed else NoFault
  }

  /** Close can go on: RWMutex.Lock is what it may have to wait for. */
  predicate CanClose(ch: Chan, phase: Phase) {
    match phase
    case Locking => !ch.writer
    case Waiting => ch.rlocks == 0
    case _ => true
  }

  /** A read loop's step: its next program point, the one channel it may change, the rest. */
  datatype ReadMove = ReadMove(next: ReadLoop, dest: nat, chan: Chan, op: BufOp, reg: RegOp, stats: Stats, fault: Fault)

  /** A write pump's step; it changes its own channel only. */
  datatype PumpMove = PumpMove(next: Pump, chan: Chan, op: BufOp, stats: Stats, sent: Option<Delivery>, fault: Fault)

  // --- Which steps are possible ---

  /** The junk of a FrameIn event is what malloc left in the part of the buffer yet to be filled. */
  predicate ReadEnabled(s: State, t: nat, ev: Event)
    requires InRange(s)
  {
    t < |s.readers| &&
    match s.readers[t]
    case Ended => false
    case Idle =>
      ev.NetError? || ev.Text? ||
      (ev.FrameIn? &&
       var h := ParseHeader(ev.stream, ev.end, MAX_MESSAGE_SIZE);
       h.HeaderOk? ==> |ev.junk| == h.dataLen)
    case Filling(_, _) => ev.Go? || ev.Stalled?
    case Handling(_, at) => ev.Go? && (at.AtLock? ==> !s.chans[at.dest].writer)
    case Closing(phase) => ev.Go? && CanClose(s.chans[t], phase)
    case _ => ev.Go?
  }

  predicate PumpEnabled(s: State, c: nat)
    requires InRange(s)
  {
    c < |s.pumps| &&
    match s.pumps[c]
    case Unstarted => false
    case Stopped => false
    case Recv => s.chans[c].queue != [] || s.chans[c].chanClosed
    case Draining => s.chans[c].queue != [] || s.chans[c].chanClosed
    case PumpClosing(phase) => CanClose(s.chans[c], phase)
    case _ => true
  }

  /** Relayer.Close is not modelled, so the latency channel stays open. */
  predicate WorkerEnabled(s: State) {
    s.worker == Booking || s.stats.latencyQueued > 0
  }

  predicate Enabled(s: State, step: Step)
    requires InRange(s)
  {
    match step
    case Accept(_) => true
    case ReadStep(t, ev) => ReadEnabled(s, t, ev)
    case PumpStep(c, _) => PumpEnabled(s, c)
    case WorkerStep => WorkerEnabled(s)
  }

  // --- What they do ---

  /** Inside SafePush. */
  predicate InPush(at: At) {
    at.AtLock? || at.AtTest? || at.AtSend? || at.AtUnlock?
  }

  /** A move that leaves everything shared alone. */
  function Local(s: State, t: nat, next: ReadLoop): ReadMove
    requires t < |s.chans|
  {
    ReadMove(next, t, s.chans[t], NoOp, NoReg, s.stats, NoFault)
  }

  /** OnConnect, the start of ReadWriteLoop, its conn.Reader call, and the deferred calls. */
  function LifeMove(s: State, t: nat, ev: Event): ReadMove
    requires InRange(s) && t < |s.readers|
  {
    var key := s.keys[t];
    match s.readers[t]
    case Fresh => Local(s, t, if key in s.registry then Starting else AddPending).(reg := Swap)
    case AddPending => Local(s, t, Starting).(stats := s.stats.(connCount := s.stats.connCount + 1))
    case Starting => Local(s, t, Idle)
    case Idle => (
      match ev
      case FrameIn(stream, end, junk) =>
        var h := ParseHeader(stream, end, MAX_MESSAGE_SIZE);
        if h == HeaderBad(Skip) then Local(s, t, Idle) else
        if h.HeaderBad? then Local(s, t, Disconnecting) else
        Local(s, t, Filling(|s.bufs|, end))
        .(op := Alloc(Buf(key + stream[..HeaderLen(h.n)] + junk, 1, false, 0, t, stream, Reading)))
      case Text => Local(s, t, Idle)
      case _ => Local(s, t, Disconnecting))
    case Disconnecting =>
      Local(s, t, if key in s.registry && s.registry[key] == t then SubPending else Closing(Locking))
      .(reg := CompareAndDelete)
    case SubPending => Local(s, t, Closing(Locking)).(stats := s.stats.(connCount := s.stats.connCount - 1))
    case Closing(phase) =>
      var (ch, next) := CloseStep(s.chans[t], phase);
      Local(s, t, if next.Some? then Closing(next.value) else Ended)
      .(chan := ch, fault := CloseFault(s.chans[t], phase))
    case r => Local(s, t, r)
  }

  /** One inbound frame outside the target loop: the rest of the parse, HandleMessage up to
      the wipe, and the read loop's own Release. */
  function FrameMove(s: State, t: nat, stalled: bool): ReadMove
    requires InRange(s) && t < |s.readers|
  {
    var key := s.keys[t];
    match s.readers[t]
    case Filling(b, end) =>
      var v := Verdict(key, s.bufs[b].stream, end, MAX_MESSAGE_SIZE, stalled);
      if v.Accepted? then Local(s, t, Received(b)).(op := Write(b, v.bytes, Raw))
      else Local(s, t, Disconnecting).(op := Reject(b))
    case Received(b) =>
      var targets := Recipients(s.bufs[b].bytes, key);
      Local(s, t, if targets == [] then Finishing(b) else Counting(b, targets)).(op := Read(b))
    case Counting(b, targets) =>
      Local(s, t, Zeroing(b, targets)).(stats := s.stats.(processed := s.stats.processed + 1))
    case Zeroing(b, targets) =>
      Local(s, t, Handling(Work(b, targets, 0, 0), AtLookup)).(op := Write(b, Zeroed(s.bufs[b].bytes), Scrubbed))
    case Finishing(b) => Local(s, t, Idle).(op := Release(b))
    case r => Local(s, t, r)
  }

  /** The target loop of HandleMessage, and DeliverTo around its SafePush. */
  function RouteMove(s: State, t: nat): ReadMove
    requires InRange(s) && t < |s.readers| && s.readers[t].Handling?
  {
    var (w, at) := (s.readers[t].w, s.readers[t].at);
    match at
    case AtLookup =>
      if w.i == |w.targets| then
        Local(s, t, Finishing(w.buf))
        .(stats := if w.matched > 0 then s.stats else
            s.stats.(noRecip := s.stats.noRecip + 1, zeroMatch := s.stats.zeroMatch + 1))
      else if w.targets[w.i] in s.registry then
        Local(s, t, Handling(w, AtRetain(s.registry[w.targets[w.i]])))
      else
        Local(s, t, Handling(w.(i := w.i + 1), AtLookup))
    case AtRetain(d) => Local(s, t, Handling(w, AtLock(d))).(op := Retain(w.buf))
    case AtUndo => Local(s, t, Handling(w, AtCount)).(op := Release(w.buf))
    case AtCount =>
      Local(s, t, Handling(w.(i := w.i + 1), AtLookup)).(stats := s.stats.(noRecip := s.stats.noRecip + 1))
    case _ => Local(s, t, s.readers[t])
  }

  /** SafePush. */
  function PushMove(s: State, t: nat): ReadMove
    requires InRange(s) && t < |s.readers| && s.readers[t].Handling? && InPush(s.readers[t].at)
  {
    var (w, at) := (s.readers[t].w, s.readers[t].at);
    var ch := s.chans[at.dest];
    match at
    case AtLock(d) =>
      Local(s, t, Handling(w, AtTest(d))).(dest := d, chan := ch.(rlocks := ch.rlocks + 1))
    case AtTest(d) =>
      if ch.isClosed then
        Local(s, t, Handling(w, AtUnlock(d, false))).(stats := s.stats.(dropped := s.stats.dropped + 1))
      else
        Local(s, t, Handling(w, AtSend(d)))
    case AtSend(d) =>
      var fault := if ch.chanClosed then SendOnClosed else NoFault;
      if |ch.queue| < s.cap then
        Local(s, t, Handling(w, AtUnlock(d, true)))
        .(dest := d, chan := ch.(queue := ch.queue + [w.buf], pushed := ch.pushed + [w.buf]),
          stats := s.stats.(pushes := s.stats.pushes + 1, extra := s.stats.extra + if w.matched > 0 then 1 else 0),
          fault := fault)
      else
        Local(s, t, Handling(w, AtUnlock(d, false)))
        .(stats := s.stats.(dropped := s.stats.dropped + 1), fault := fault)
    case AtUnlock(d, ok) =>
      Local(s, t, if ok then Handling(w.(i := w.i + 1, matched := w.matched + 1), AtLookup) else Handling(w, AtUndo))
      .(dest := d, chan := ch.(rlocks := ch.rlocks - 1))
  }

  /** Inside the target loop, but outside SafePush. */
  predicate OnRoute(r: ReadLoop) {
    r.Handling? && !InPush(r.at)
  }

  predicate OnPush(r: ReadLoop) {
    r.Handling? && InPush(r.at)
  }

  /** The read loop has a frame in hand but is not inside the target loop. */
  predicate OnFrame(r: ReadLoop) {
    r.Filling? || r.Received? || r.Counting? || r.Zeroing? || r.Finishing?
  }

  function MoveOf(s: State, t: nat, ev: Event): ReadMove
    requires InRange(s) && t < |s.readers|
  {
    if OnRoute(s.readers[t]) then RouteMove(s, t) else
    if OnPush(s.readers[t]) then PushMove(s, t) else
    if OnFrame(s.readers[t]) then FrameMove(s, t, ev.Stalled?) else
    LifeMove(s, t, ev)
  }

  /** The write pump and its drain after a failed write. */
  function PumpMoveOf(s: State, c: nat, writeOk: bool): PumpMove
    requires InRange(s) && c < |s.pumps|
  {
    var ch, st := s.chans[c], s.stats;
    match s.pumps[c]
    case Recv =>
      if ch.queue == [] then PumpMove(Stopped, ch, NoOp, st, None, NoFault)
      else PumpMove(Writing(ch.queue[0]), ch.(queue := ch.queue[1..]), NoOp, st, None, NoFault)
    case Writing(b) =>
      PumpMove(Freeing(b, writeOk), ch, Read(b),
        if writeOk then st else st.(writeFails := st.writeFails + 1),
        if writeOk then Some(Delivery(b, |ch.pushed| - |ch.queue| - 1, s.bufs[b].bytes)) else None, NoFault)
    case Freeing(b, ok) => PumpMove(Reporting(ok), ch, Release(b), st, None, NoFault)
    case Reporting(ok) =>
      PumpMove(if ok then Recording else PumpClosing(Locking), ch, NoOp,
        if ok then st.(delivered := st.delivered + 1) else st.(noRecip := st.noRecip + 1), None, NoFault)
    case Recording =>
      PumpMove(Recv, ch, NoOp,
        if st.latencyQueued < LATENCY_CAP then st.(latencyQueued := st.latencyQueued + 1)
        else st.(latencyDropped := st.latencyDropped + 1), None, NoFault)
    case PumpClosing(phase) =>
      var (ch', next) := CloseStep(ch, phase);
      PumpMove(if next.Some? then PumpClosing(next.value) else Draining, ch', NoOp, st, None, CloseFault(ch, phase))
    case Draining =>
      if ch.queue == [] then PumpMove(Stopped, ch, NoOp, st, None, NoFault)
      else PumpMove(DrainFreeing(ch.queue[0]), ch.(queue := ch.queue[1..]), NoOp, st, None, NoFault)
    case DrainFreeing(b) =>
      PumpMove(Draining, ch, Release(b), st.(drained := st.drained + 1), None, NoFault)
    case p => PumpMove(p, ch, NoOp, st, None, NoFault)
  }

  // --- Applying a move ---

  predicate ReadMoveInRange(s: State, m: ReadMove) {
    && m.dest < |s.chans|
    && OpInRange(m.op, |s.bufs|)
    && ReaderInRange(m.next, |Bufs(s.bufs, m.op)|, |s.keys|)
    && QueueInRange(m.chan.queue, |s.bufs|)
  }

  predicate PumpMoveInRange(s: State, m: PumpMove) {
    && OpInRange(m.op, |s.bufs|) && !m.op.Alloc?
    && PumpInRange(m.next, |s.bufs|)
    && QueueInRange(m.chan.queue, |s.bufs|)
  }

  /** With at least as many buffers as before, everything stays in range. */
  lemma StillInRange(s: State, bufs: nat)
    requires InRange(s) && |s.bufs| <= bufs
    ensures forall t :: 0 <= t < |s.readers| ==> ReaderInRange(s.readers[t], bufs, |s.keys|)
    ensures forall c :: 0 <= c < |s.pumps| ==> PumpInRange(s.pumps[c], bufs)
    ensures forall c :: 0 <= c < |s.chans| ==> QueueInRange(s.chans[c].queue, bufs)
  {
    forall t | 0 <= t < |s.readers| ensures ReaderInRange(s.readers[t], bufs, |s.keys|) {
      assert ReaderInRange(s.readers[t], |s.bufs|, |s.keys|);
    }
  }

  function RegistryAfter(registry: map<Id, nat>, op: RegOp, key: Id, t: nat): (registry': map<Id, nat>)
    ensures forall k :: k in registry' ==> registry'[k] == t || (k in registry && registry'[k] == registry[k])
  {
    match op
    case NoReg => registry
    case Swap => registry[key := t]
    case CompareAndDelete => if key in registry && registry[key] == t then registry - {key} else registry
  }

  /** The read loop starts its pump. */
  function PumpsAfter(pumps: seq<Pump>, r: ReadLoop, t: nat): (pumps': seq<Pump>)
    requires t < |pumps|
    ensures |pumps'| == |pumps| && forall c :: 0 <= c < |pumps| ==> pumps'[c] == pumps[c] || pumps'[c] == Recv
  {
    if r.Starting? then pumps[t := Recv] else pumps
  }

  function AcceptedAfter(accepted: seq<seq<nat>>, op: BufOp, t: nat): (accepted': seq<seq<nat>>)
    requires t < |accepted|
    ensures |accepted'| == |accepted|
  {
    if op.Write? && op.stage == Raw then accepted[t := accepted[t] + [op.b]] else accepted
  }

  function ApplyRead(s: State, t: nat, m: ReadMove): (s': State)
    requires InRange(s) && t < |s.readers| && ReadMoveInRange(s, m)
    ensures InRange(s')
  {
    StillInRange(s, |Bufs(s.bufs, m.op)|);
    var key := s.keys[t];
    s.(readers := s.readers[t := m.next],
       chans := s.chans[m.dest := m.chan],
       pumps := PumpsAfter(s.pumps, s.readers[t], t),
       bufs := Bufs(s.bufs, m.op),
       accepted := AcceptedAfter(s.accepted, m.op, t),
       registry := RegistryAfter(s.registry, m.reg, key, t),
       lastSwap := if m.reg == Swap then s.lastSwap[key := t] else s.lastSwap,
       gone := if m.reg == CompareAndDelete then s.gone + {t} else s.gone,
       stats := m.stats,
       fault := Worse(s.fault, Worse(m.fault, BufFault(s.bufs, m.op))))
  }

  function ApplyPump(s: State, c: nat, m: PumpMove): (s': State)
    requires InRange(s) && c < |s.pumps| && PumpMoveInRange(s, m)
    ensures InRange(s')
  {
    s.(pumps := s.pumps[c := m.next],
       chans := s.chans[c := m.chan],
       bufs := Bufs(s.bufs, m.op),
       written := if m.sent.Some? then s.written[c := s.written[c] + [m.sent.value]] else s.written,
       stats := m.stats,
       fault := Worse(s.fault, Worse(m.fault, BufFault(s.bufs, m.op))))
  }

  /** The latency worker takes a measurement, then counts it. */
  function ApplyWorker(s: State): (s': State)
    requires InRange(s) && WorkerEnabled(s)
    ensures InRange(s')
  {
    if s.worker == Booking then s.(worker := Ranging, stats := s.stats.(latencyCount := s.stats.latencyCount + 1))
    else s.(worker := Booking, stats := s.stats.(latencyQueued := s.stats.latencyQueued - 1))
  }

  /** The server takes a connection and builds its connector. */
  function ApplyAccept(s: State, key: Id): (s': State)
    requires InRange(s)
    ensures InRange(s')
  {
    s.(keys := s.keys + [key],
       chans := s.chans + [Chan([], false, false, 0, false, [])],
       readers := s.readers + [Fresh],
       pumps := s.pumps + [Unstarted],
       written := s.written + [[]],
       accepted := s.accepted + [[]])
  }

  lemma LifeMoveInRange(s: State, t: nat, ev: Event)
    requires InRange(s) && ReadEnabled(s, t, ev)
    requires !s.readers[t].Handling? && !OnFrame(s.readers[t])
    ensures ReadMoveInRange(s, LifeMove(s, t, ev))
  {
  }

  lemma FrameMoveInRange(s: State, t: nat, stalled: bool)
    requires InRange(s) && t < |s.readers| && !s.readers[t].Handling?
    ensures ReadMoveInRange(s, FrameMove(s, t, stalled))
  {
    assert ReaderInRange(s.readers[t], |s.bufs|, |s.keys|);
  }

  lemma RouteMoveInRange(s: State, t: nat)
    requires InRange(s) && t < |s.readers| && OnRoute(s.readers[t])
    ensures ReadMoveInRange(s, RouteMove(s, t))
  {
    assert ReaderInRange(s.readers[t], |s.bufs|, |s.keys|);
  }

  lemma PushMoveInRange(s: State, t: nat)
    requires InRange(s) && t < |s.readers| && OnPush(s.readers[t])
    ensures ReadMoveInRange(s, PushMove(s, t))
  {
    assert ReaderInRange(s.readers[t], |s.bufs|, |s.keys|);
  }

  lemma MoveInRange(s: State, t: nat, ev: Event)
    requires InRange(s) && ReadEnabled(s, t, ev)
    ensures ReadMoveInRange(s, MoveOf(s, t, ev))
  {
    if OnRoute(s.readers[t]) {
      RouteMoveInRange(s, t);
    } else if OnPush(s.readers[t]) {
      PushMoveInRange(s, t);
    } else if OnFrame(s.readers[t]) {
      FrameMoveInRange(s, t, ev.Stalled?);
    } else {
      LifeMoveInRange(s, t, ev);
    }
  }

  lemma PumpMoveOfInRange(s: State, c: nat, writeOk: bool)
    requires InRange(s) && PumpEnabled(s, c)
    ensures PumpMoveInRange(s, PumpMoveOf(s, c, writeOk))
  {
    assert PumpInRange(s.pumps[c], |s.bufs|);
  }

  function Next(s: State, step: Step): (s': State)
    requires InRange(s) && Enabled(s, step)
    ensures InRange(s')
  {
    match step
    case Accept(key) => ApplyAccept(s, key)
    case WorkerStep => ApplyWorker(s)
    case PumpStep(c, writeOk) =>
      PumpMoveOfInRange(s, c, writeOk);
      ApplyPump(s, c, PumpMoveOf(s, c, writeOk))
    case ReadStep(t, ev) =>
      MoveInRange(s, t, ev);
      ApplyRead(s, t, MoveOf(s, t, ev))
  }

  /** Whether the steps can be taken one after the other, and where they lead. */
  predicate CanRun(s: State, steps: seq<Step>)
    requires InRange(s)
    decreases |steps|
  {
    steps == [] || (Enabled(s, steps[0]) && CanRun(Next(s, steps[0]), steps[1..]))
  }

  function Run(s: State, steps: seq<Step>): (s': State)
    requires InRange(s) && CanRun(s, steps)
    ensures InRange(s')
    decreases |steps|
  {
    if steps == [] then s else Run(Next(s, steps[0]), steps[1..])
  }

  ghost predicate Reachable(s: State) {
    exists size: int, steps: seq<Step> :: CanRun(Init(size), steps) && Run(Init(size), steps) == s
  }
}
