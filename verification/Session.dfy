/** One turn of a connection's read loop: parse a frame, route it, give up the loop's reference. */
module Session {
  import opened Wrappers
  import opened Wire
  import opened Message
  import opened Memory
  import opened Targets
  import opened Codec
  import opened Parser
  import opened Folds
  import opened Connector
  import opened Relaying

  /** The read loop's Release. */
  method GiveUp(app: Relayer, buf: Buffer) returns (panicked: bool)
    requires app.Valid() && buf.refs > 0
    modifies buf
    ensures app.Valid() && QueuesOf(app.connectors) == old(QueuesOf(app.connectors))
    ensures buf.refs == old(buf.refs) - 1 && !panicked
    ensures buf.Bytes() == if buf.refs == 0 then [] else old(buf.Bytes())
  {
    hide PortsOf, Rooms, Queues, OwnKeys;
    panicked := buf.Release();
  }

  /** HandleMessage on a freshly parsed buffer, and the read loop's Release after it. */
  method Route(c: WSConnector, app: Relayer, buf: Buffer) returns (panicked: bool)
    requires app.Valid() && buf.refs == 1
    modifies app`processed, app`noRecip, app.connectors.Values, buf, if buf.data == null then {} else {buf.data}
    ensures app.Valid() && !panicked
    ensures var targets := Recipients(old(buf.Bytes()), c.pubKey);
      && QueuesOf(app.connectors)
         == QueuesAfter(targets, buf, old(RoomsOf(app.connectors)), old(QueuesOf(app.connectors)))
      && buf.refs == Matched(targets, old(RoomsOf(app.connectors)))
      && buf.Bytes() == (if buf.refs == 0 then [] else Zeroed(old(buf.Bytes())))
      && app.processed == old(app.processed) + (if targets == [] then 0 else 1)
      && app.noRecip == old(app.noRecip) + Failures(targets, old(RoomsOf(app.connectors)))
  {
    hide PortsOf, Rooms, Queues, OwnKeys, Recipients, QueuesAfter, Failures, Zeroed;
    app.HandleMessage(c, buf);
    panicked := GiveUp(app, buf);
  }

  /** The parser on behalf of connection c; the relayer stays as it is. */
  method Receive(r: Reader, c: WSConnector, app: Relayer) returns (out: Outcome)
    requires app.Valid()
    modifies r
    ensures app.Valid()
    ensures RoomsOf(app.connectors) == old(RoomsOf(app.connectors))
    ensures QueuesOf(app.connectors) == old(QueuesOf(app.connectors))
    ensures var v := Verdict(c.pubKey, old(r.rest), r.end, MAX_MESSAGE_SIZE, r.stalled);
      match out
      case Err(e) => v == Rejected(e)
      case Ok(buf) =>
        fresh(buf) && buf.refs == 1 && buf.data != null && fresh(buf.data) && v == Accepted(buf.Bytes())
  {
    hide PortsOf, Rooms, Queues, OwnKeys, Verdict, ParseHeader, ReachesProbe;
    ghost var ports := PortsOf(app.connectors);
    var o, _, _ := ReadMessageWithFixedFromID(r, MAX_MESSAGE_SIZE, c.pubKey);
    assert PortsOf(app.connectors) == ports;
    out := o;
  }

  /** One binary frame. None means that the loop goes on; buf is the buffer that was routed. */
  method Turn(r: Reader, c: WSConnector, app: Relayer) returns (exit: Option<Error>, ghost buf: Buffer?)
    requires app.Valid()
    modifies r, app`processed, app`noRecip, app.connectors.Values
    ensures app.Valid()
    ensures var v := Verdict(c.pubKey, old(r.rest), r.end, MAX_MESSAGE_SIZE, r.stalled);
      match v
      case Rejected(e) =>
        && exit == (if e == Skip then None else Some(e)) && buf == null
        && QueuesOf(app.connectors) == old(QueuesOf(app.connectors))
        && app.processed == old(app.processed) && app.noRecip == old(app.noRecip)
      case Accepted(bytes) =>
        && exit == None && buf != null && fresh(buf)
        && var targets := Recipients(bytes, c.pubKey);
        && QueuesOf(app.connectors)
         == QueuesAfter(targets, buf, old(RoomsOf(app.connectors)), old(QueuesOf(app.connectors)))
        && buf.refs == Matched(targets, old(RoomsOf(app.connectors)))
        && buf.Bytes() == (if buf.refs == 0 then [] else Zeroed(bytes))
        && app.processed == old(app.processed) + (if targets == [] then 0 else 1)
        && app.noRecip == old(app.noRecip) + Failures(targets, old(RoomsOf(app.connectors)))
  {
    hide RoomsOf, QueuesOf, OwnKeys, Verdict, Recipients, QueuesAfter, Matched, Failures, Zeroed;
    var out := Receive(r, c, app);
    match out {
      case Err(e) =>
        exit, buf := if e == Skip then None else Some(e), null;
      case Ok(m) =>
        var _ := Route(c, app, m);
        exit, buf := None, m;
    }
  }

  /** A connector's write pump run until its channel is empty, and what it reports: one success per
      message written, and one failure for the write that ended it. Drained messages are not counted. */
  method RunPump(c: WSConnector, app: Relayer, writes: seq<bool>) returns (sent: seq<seq<byte>>, failed: bool)
    requires app.Valid() && c.Valid() && |writes| >= |c.queue| && c.OwnsQueue()
    modifies c, c.queue, app`delivered, app`noRecip
    ensures app.Valid() && c.Valid() && c.queue == []
    ensures forall b :: b in old(c.queue) ==> b.refs == old(b.refs) - Occurrences(old(c.queue), b)
    ensures |sent| <= |old(c.queue)| && (failed <==> |sent| < |old(c.queue)|)
    ensures c.isClosed == (failed || old(c.isClosed))
    ensures forall j :: 0 <= j < |sent| ==> writes[j] && sent[j] == old(c.queue[j].Bytes())
    ensures failed ==> !writes[|sent|]
    ensures app.delivered == old(app.delivered) + |sent|
    ensures app.noRecip == old(app.noRecip) + if failed then 1 else 0
  {
    hide OwnKeys;
    var panicked;
    sent, failed, panicked := c.WritePump(writes);
    app.delivered := app.delivered + |sent|;
    if failed {
      app.noRecip := app.noRecip + 1;
    }
  }
}
