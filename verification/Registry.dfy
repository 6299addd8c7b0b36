/** The registry under interleaving, and the connection counter beside it. */
module Registry {
  import opened Wire
  import opened Codec
  import opened Folds
  import opened Model
  import opened Content

  /** The connection's OnDisconnect has passed its CompareAndDelete. */
  predicate PastDelete(r: ReadLoop) {
    r.SubPending? || r.Closing? || r.Ended?
  }

  function AddsPending(r: ReadLoop): int { if r.AddPending? then 1 else 0 }

  function SubsPending(r: ReadLoop): int { if r.SubPending? then 1 else 0 }

  /** Per key: the most recent connection swapped in, unless its own OnDisconnect has run. */
  ghost predicate LatestRegistered(s: State) {
    && (forall k :: k in s.lastSwap ==> s.lastSwap[k] < |s.keys| && s.keys[s.lastSwap[k]] == k)
    && (forall k :: k in s.registry <==> k in s.lastSwap && s.lastSwap[k] !in s.gone)
    && (forall k :: k in s.registry ==> s.registry[k] == s.lastSwap[k])
  }

  ghost predicate GoneOk(s: State) {
    && |s.readers| == |s.keys|
    && (forall c :: c in s.gone <==> 0 <= c < |s.readers| && PastDelete(s.readers[c]))
    && (forall k :: k in s.lastSwap ==> s.lastSwap[k] < |s.readers| && !s.readers[s.lastSwap[k]].Fresh?)
  }

  /** connCount lags behind the registry by exactly the updates still to come. */
  ghost predicate CountLags(s: State) {
    s.stats.connCount == |s.registry| - Tally(s.readers, AddsPending) + Tally(s.readers, SubsPending)
  }

  ghost predicate Registered(s: State) {
    LatestRegistered(s) && GoneOk(s) && CountLags(s)
  }

  /** What a read loop's step does around the registry. */
  ghost predicate RegMove(s: State, t: nat, m: ReadMove)
    requires t < |s.readers| && t < |s.keys|
  {
    var (r, key) := (s.readers[t], s.keys[t]);
    && (m.reg == Swap <==> r.Fresh?)
    && (m.reg == CompareAndDelete <==> r.Disconnecting?)
    && (PastDelete(m.next) <==> PastDelete(r) || r.Disconnecting?)
    && !m.next.Fresh?
    && m.stats.connCount - s.stats.connCount == AddsPending(r) - SubsPending(r)
    && AddsPending(m.next) == (if r.Fresh? && key !in s.registry then 1 else 0)
    && SubsPending(m.next) == (if r.Disconnecting? && key in s.registry && s.registry[key] == t then 1 else 0)
  }

  lemma RegMoveOf(s: State, t: nat, ev: Event)
    requires InRange(s) && ReadEnabled(s, t, ev)
    ensures RegMove(s, t, MoveOf(s, t, ev))
  {
    if OnRoute(s.readers[t]) {
      RegRoute(s, t);
    } else if OnPush(s.readers[t]) {
      RegPush(s, t);
    } else if OnFrame(s.readers[t]) {
      RegFrame(s, t, ev.Stalled?);
    } else {
      RegLife(s, t, ev);
    }
  }

  lemma RegLife(s: State, t: nat, ev: Event)
    requires InRange(s) && ReadEnabled(s, t, ev) && !s.readers[t].Handling? && !OnFrame(s.readers[t])
    ensures RegMove(s, t, LifeMove(s, t, ev))
  {
    hide ParseHeader, CloseStep, ReaderInRange, QueueInRange;
  }

  lemma RegFrame(s: State, t: nat, stalled: bool)
    requires InRange(s) && t < |s.readers| && OnFrame(s.readers[t])
    ensures RegMove(s, t, FrameMove(s, t, stalled))
  {
  }

  lemma RegRoute(s: State, t: nat)
    requires InRange(s) && t < |s.readers| && OnRoute(s.readers[t])
    ensures RegMove(s, t, RouteMove(s, t))
  {
  }

  lemma RegPush(s: State, t: nat)
    requires InRange(s) && t < |s.readers| && OnPush(s.readers[t])
    ensures RegMove(s, t, PushMove(s, t))
  {
  }

  lemma LatestAfterRead(s: State, t: nat, m: ReadMove)
    requires InRange(s) && t < |s.readers| && ReadMoveInRange(s, m) && RegMove(s, t, m)
    requires LatestRegistered(s) && GoneOk(s)
    ensures LatestRegistered(ApplyRead(s, t, m))
  {
    hide InRange, ReadMoveInRange, Bufs, BufFault, PumpsAfter, AcceptedAfter;
    var (s', key) := (ApplyRead(s, t, m), s.keys[t]);
    forall k ensures k in s'.registry <==> k in s'.lastSwap && s'.lastSwap[k] !in s'.gone {
      if k != key {
        assert k in s.registry <==> k in s.lastSwap && s.lastSwap[k] !in s.gone;
      }
    }
  }

  lemma GoneAfterRead(s: State, t: nat, m: ReadMove)
    requires InRange(s) && t < |s.readers| && ReadMoveInRange(s, m) && RegMove(s, t, m) && GoneOk(s)
    ensures GoneOk(ApplyRead(s, t, m))
  {
    hide ReadMoveInRange, Bufs, BufFault, PumpsAfter, AcceptedAfter, RegistryAfter;
  }

  lemma CountAfterRead(s: State, t: nat, m: ReadMove)
    requires InRange(s) && t < |s.readers| && ReadMoveInRange(s, m) && RegMove(s, t, m) && CountLags(s)
    ensures CountLags(ApplyRead(s, t, m))
  {
    TallyUpdate(s.readers, t, m.next, AddsPending);
    TallyUpdate(s.readers, t, m.next, SubsPending);
    MapSizes(s.registry, s.keys[t], t);
  }

  lemma RegisteredAfterRead(s: State, t: nat, m: ReadMove)
    requires InRange(s) && t < |s.readers| && ReadMoveInRange(s, m) && RegMove(s, t, m) && Registered(s)
    ensures Registered(ApplyRead(s, t, m))
  {
    LatestAfterRead(s, t, m);
    GoneAfterRead(s, t, m);
    CountAfterRead(s, t, m);
  }

  lemma RegisteredAfterAccept(s: State, key: Id)
    requires InRange(s) && Registered(s)
    ensures Registered(ApplyAccept(s, key))
  {
    TallyAppend(s.readers, Fresh, AddsPending);
    TallyAppend(s.readers, Fresh, SubsPending);
  }

  /** Every registered connector is registered under its own key. */
  lemma RegisteredUnderOwnKey(s: State)
    requires LatestRegistered(s)
    ensures KeysMatch(s)
  {
  }
}
