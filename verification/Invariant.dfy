/** The invariant of all reachable states. */
module Invariant {
  import opened Wire
  import opened Model
  import opened Ownership
  import opened Locking
  import opened Content
  import opened Traffic
  import opened Registry
  import opened Accounting

  ghost predicate MemoryOk(s: State) {
    Conserved(s) && Locked(s) && s.fault == NoFault
  }

  ghost predicate ContentOk(s: State) {
    BufsOk(s) && ReadersOk(s) && Traced(s) && TailsOk(s) && WritesOk(s) && AcceptsOk(s)
  }

  ghost predicate BooksOk(s: State) {
    Registered(s) && Balanced(s) && ExtraNeedsMany(s)
  }

  ghost predicate Inv(s: State) {
    InRange(s) && MemoryOk(s) && ContentOk(s) && BooksOk(s)
  }

  /** Everything that is known about one step of a read loop. */
  ghost predicate ReadFacts(s: State, t: nat, m: ReadMove)
    requires InRange(s) && t < |s.readers|
  {
    && ReadMoveInRange(s, m)
    && ReadBalanced(s, t, m)
    && ReadLockMove(s, t, m)
    && m.fault == NoFault
    && ReadContent(s, t, m)
    && RegMove(s, t, m)
    && ReadBooks(s, t, m)
  }

  ghost predicate PumpFacts(s: State, c: nat, m: PumpMove)
    requires InRange(s) && c < |s.pumps|
  {
    && PumpMoveInRange(s, m)
    && PumpBalanced(s, c, m)
    && PumpLockMove(s, c, m)
    && m.fault == NoFault
    && PumpTraffic(s, c, m)
    && PumpBooks(s, c, m)
  }

  lemma ReadFactsOf(s: State, t: nat, ev: Event)
    requires Inv(s) && ReadEnabled(s, t, ev)
    ensures ReadFacts(s, t, MoveOf(s, t, ev))
  {
    hide MoveOf, ReadEnabled;
    MoveInRange(s, t, ev);
    ReadBalance(s, t, ev);
    ReadLockMoveOf(s, t, ev);
    RegisteredUnderOwnKey(s);
    ReadContentOf(s, t, ev);
    RegMoveOf(s, t, ev);
    ReadBooksOf(s, t, ev);
  }

  lemma PumpFactsOf(s: State, c: nat, writeOk: bool)
    requires Inv(s) && PumpEnabled(s, c)
    ensures PumpFacts(s, c, PumpMoveOf(s, c, writeOk))
  {
    PumpMoveOfInRange(s, c, writeOk);
    PumpBalance(s, c, writeOk);
    PumpLockMoveOf(s, c, writeOk);
    PumpTrafficOf(s, c, writeOk);
    PumpBooksOf(s, c, writeOk);
  }

  /** A read loop that has not started yet has no pump. */
  lemma StartingAlone(s: State, t: nat)
    requires t < |s.readers| && ConnsOk(s)
    ensures s.readers[t].Starting? ==> s.pumps[t].Unstarted?
  {
    assert ConnOk(s.chans[t], s.readers[t], s.pumps[t], s.cap);
  }

  lemma ReadKeepsMemory(s: State, t: nat, m: ReadMove)
    requires InRange(s) && t < |s.readers| && MemoryOk(s) && ReadMoveInRange(s, m)
    requires ReadBalanced(s, t, m) && ReadLockMove(s, t, m) && m.fault == NoFault
    ensures MemoryOk(ApplyRead(s, t, m))
  {
    StartingAlone(s, t);
    ReadConserves(s, t, m);
    ReadKeepsLocked(s, t, m);
  }

  lemma ReadKeepsContent(s: State, t: nat, m: ReadMove)
    requires InRange(s) && t < |s.readers| && ReadMoveInRange(s, m)
    requires ConnsOk(s) && ContentOk(s) && ReadContent(s, t, m)
    ensures ContentOk(ApplyRead(s, t, m))
  {
    StartingAlone(s, t);
    BufsAfterOp(s.bufs, m.op, s, t);
    ReadersAfterRead(s, t, m);
    TracedAfterRead(s, t, m);
    TailsAfterRead(s, t, m);
    WritesAfterRead(s, t, m);
    AcceptsAfterRead(s, t, m);
  }

  /** A push beyond the first comes from a loop with several targets. */
  lemma ExtraAfterRead(s: State, t: nat, m: ReadMove)
    requires InRange(s) && t < |s.readers| && ReadMoveInRange(s, m) && ReadContent(s, t, m) && ReadBooks(s, t, m)
    requires ReadersOk(s) && ExtraNeedsMany(s)
    ensures ExtraNeedsMany(ApplyRead(s, t, m))
  {
    hide ReaderInRange, PumpInRange, QueueInRange, RegistryAfter, AcceptedAfter, PumpsAfter, BufFault, Bufs, OpContent;
    var s' := ApplyRead(s, t, m);
    OpKeepsOrigins(s, t, m.op);
    if s'.stats.extra > 0 {
      var b: nat;
      if s.stats.extra > 0 {
        b :| ForMany(s, b);
      } else {
        assert ReaderOk(s.readers[t], t, s.bufs, s.keys);
        b := s.readers[t].w.buf;
      }
      assert For(s'.keys, s'.bufs[b]) == For(s.keys, s.bufs[b]) && ForMany(s', b);
    }
  }

  lemma ReadKeepsBooks(s: State, t: nat, m: ReadMove)
    requires InRange(s) && t < |s.readers| && ConnsOk(s) && ReadersOk(s) && BooksOk(s) && ReadMoveInRange(s, m)
    requires ReadContent(s, t, m) && RegMove(s, t, m) && ReadBooks(s, t, m)
    ensures BooksOk(ApplyRead(s, t, m))
  {
    StartingAlone(s, t);
    RegisteredAfterRead(s, t, m);
    BalancedAfterRead(s, t, m);
    ExtraAfterRead(s, t, m);
  }

  lemma ReadKeepsInv(s: State, t: nat, m: ReadMove)
    requires Inv(s) && t < |s.readers| && ReadFacts(s, t, m)
    ensures Inv(ApplyRead(s, t, m))
  {
    ReadKeepsMemory(s, t, m);
    ReadKeepsContent(s, t, m);
    ReadKeepsBooks(s, t, m);
  }

  lemma PumpKeepsMemory(s: State, c: nat, m: PumpMove)
    requires InRange(s) && c < |s.pumps| && MemoryOk(s) && PumpMoveInRange(s, m)
    requires PumpBalanced(s, c, m) && PumpLockMove(s, c, m) && m.fault == NoFault
    ensures MemoryOk(ApplyPump(s, c, m))
  {
    PumpConserves(s, c, m);
    PumpKeepsLocked(s, c, m);
  }

  lemma PumpKeepsContent(s: State, c: nat, m: PumpMove)
    requires InRange(s) && c < |s.pumps| && ContentOk(s) && PumpMoveInRange(s, m) && PumpTraffic(s, c, m)
    ensures ContentOk(ApplyPump(s, c, m))
  {
    ReadersAfterPump(s, c, m);
    TracedAfterPump(s, c, m);
    TailsAfterPump(s, c, m);
    WritesAfterPump(s, c, m);
    AcceptsAfterPump(s, c, m);
  }

  lemma PumpKeepsBooks(s: State, c: nat, m: PumpMove)
    requires InRange(s) && c < |s.pumps| && BooksOk(s) && PumpMoveInRange(s, m)
    requires PumpTraffic(s, c, m) && PumpBooks(s, c, m)
    ensures BooksOk(ApplyPump(s, c, m))
  {
    BalancedAfterPump(s, c, m);
    ExtraAfterPump(s, c, m);
    RegisteredAfterPump(s, c, m);
  }

  lemma ExtraAfterPump(s: State, c: nat, m: PumpMove)
    requires InRange(s) && c < |s.pumps| && PumpMoveInRange(s, m) && PumpTraffic(s, c, m) && PumpBooks(s, c, m)
    requires ExtraNeedsMany(s)
    ensures ExtraNeedsMany(ApplyPump(s, c, m))
  {
    var s' := ApplyPump(s, c, m);
    PumpKeepsOrigins(s.bufs, m.op);
    if s.stats.extra > 0 {
      var b: nat :| ForMany(s, b);
      assert For(s'.keys, s'.bufs[b]) == For(s.keys, s.bufs[b]) && ForMany(s', b);
    }
  }

  lemma RegisteredAfterPump(s: State, c: nat, m: PumpMove)
    requires InRange(s) && c < |s.pumps| && PumpMoveInRange(s, m) && PumpBooks(s, c, m) && Registered(s)
    ensures Registered(ApplyPump(s, c, m))
  {
  }

  lemma PumpKeepsInv(s: State, c: nat, m: PumpMove)
    requires Inv(s) && c < |s.pumps| && PumpFacts(s, c, m)
    ensures Inv(ApplyPump(s, c, m))
  {
    PumpKeepsMemory(s, c, m);
    PumpKeepsContent(s, c, m);
    PumpKeepsBooks(s, c, m);
  }

  lemma AcceptKeepsInv(s: State, key: Id)
    requires Inv(s)
    ensures Inv(ApplyAccept(s, key))
  {
    AcceptConserves(s, key);
    AcceptKeepsLocked(s, key);
    ContentAfterAccept(s, key);
    TracedAfterAccept(s, key);
    LogsAfterAccept(s, key);
    RegisteredAfterAccept(s, key);
    BalancedAfterAccept(s, key);
    ExtraAfterAccept(s, key);
  }

  lemma WorkerKeepsMemory(s: State)
    requires InRange(s) && WorkerEnabled(s) && MemoryOk(s)
    ensures MemoryOk(ApplyWorker(s))
  {
  }

  lemma WorkerKeepsContent(s: State)
    requires InRange(s) && WorkerEnabled(s) && ContentOk(s)
    ensures ContentOk(ApplyWorker(s))
  {
    hide InRange, BufOk, ReaderOk, DeliveriesOk, AcceptedOk, TailOk, Served;
    var s' := ApplyWorker(s);
    forall c, j | 0 <= c < |s'.chans| && 0 <= j < |s'.chans[c].pushed| ensures SentOk(s', c, s'.chans[c].pushed[j]) {
      assert SentOk(s, c, s.chans[c].pushed[j]);
    }
  }

  lemma WorkerKeepsRegistered(s: State)
    requires InRange(s) && WorkerEnabled(s) && Registered(s)
    ensures Registered(ApplyWorker(s))
  {
    hide InRange;
  }

  lemma WorkerKeepsExtra(s: State)
    requires InRange(s) && WorkerEnabled(s) && ExtraNeedsMany(s)
    ensures ExtraNeedsMany(ApplyWorker(s))
  {
    hide InRange;
    if s.stats.extra > 0 {
      var b: nat :| ForMany(s, b);
      assert ForMany(ApplyWorker(s), b);
    }
  }

  lemma WorkerKeepsBooks(s: State)
    requires InRange(s) && WorkerEnabled(s) && BooksOk(s)
    ensures BooksOk(ApplyWorker(s))
  {
    hide InRange, Registered, ExtraNeedsMany, Balanced;
    WorkerKeepsRegistered(s);
    BalancedAfterWorker(s);
    WorkerKeepsExtra(s);
  }

  lemma WorkerKeepsInv(s: State)
    requires Inv(s) && WorkerEnabled(s)
    ensures Inv(ApplyWorker(s))
  {
    WorkerKeepsMemory(s);
    WorkerKeepsContent(s);
    WorkerKeepsBooks(s);
  }

  lemma ExtraAfterAccept(s: State, key: Id)
    requires InRange(s) && ExtraNeedsMany(s)
    ensures ExtraNeedsMany(ApplyAccept(s, key))
  {
    var s' := ApplyAccept(s, key);
    if s.stats.extra > 0 {
      var b: nat :| ForMany(s, b);
      assert For(s'.keys, s'.bufs[b]) == For(s.keys, s.bufs[b]) && ForMany(s', b);
    }
  }

  /** Every step of every goroutine keeps the invariant. */
  lemma StepKeepsInv(s: State, step: Step)
    requires Inv(s) && Enabled(s, step)
    ensures Inv(Next(s, step))
  {
    hide MemoryOk, ContentOk, BooksOk, MoveOf, PumpMoveOf, ApplyAccept, ApplyWorker, ApplyRead, ApplyPump;
    match step
    case Accept(key) =>
      AcceptKeepsInv(s, key);
    case WorkerStep =>
      WorkerKeepsInv(s);
    case ReadStep(t, ev) =>
      ReadFactsOf(s, t, ev);
      ReadKeepsInv(s, t, MoveOf(s, t, ev));
    case PumpStep(c, writeOk) =>
      PumpFactsOf(s, c, writeOk);
      PumpKeepsInv(s, c, PumpMoveOf(s, c, writeOk));
  }

  lemma InitInv(size: int)
    ensures Inv(Init(size))
  {
  }

  lemma {:induction false} RunKeepsInv(s: State, steps: seq<Step>)
    requires Inv(s) && CanRun(s, steps)
    ensures Inv(Run(s, steps))
    decreases |steps|
  {
    hide MemoryOk, ContentOk, BooksOk, Next, Enabled;
    if steps != [] {
      StepKeepsInv(s, steps[0]);
      RunKeepsInv(Next(s, steps[0]), steps[1..]);
    }
  }

  /** The invariant holds in every state of every run, for every interleaving. */
  lemma ReachableInv(s: State)
    requires Reachable(s)
    ensures Inv(s)
  {
    hide MemoryOk, ContentOk, BooksOk, Next, Enabled;
    var size, steps :| CanRun(Init(size), steps) && Run(Init(size), steps) == s;
    InitInv(size);
    RunKeepsInv(Init(size), steps);
  }
}
