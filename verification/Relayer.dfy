/** The relayer as an object, its methods run one at a time. */
module Relaying {
  import opened Wrappers
  import opened Wire
  import opened Message
  import opened Memory
  import opened Targets
  import opened Folds
  import opened Connector

  // --- What HandleMessage comes to, as functions of the targets and of the room in the queues ---

  /** The push for target i succeeds: somebody is registered, and earlier pushes to the same
      connector have left room. */
  ghost predicate Taken(targets: seq<Id>, i: nat, room: map<Id, nat>)
    requires i < |targets|
  {
    targets[i] in room && Occurrences(targets[..i], targets[i]) < room[targets[i]]
  }

  ghost function Matched(targets: seq<Id>, room: map<Id, nat>): nat {
    if targets == [] then 0 else
    Matched(targets[..|targets| - 1], room) + if Taken(targets, |targets| - 1, room) then 1 else 0
  }

  /** Targets that are registered but have no room left. */
  ghost function Dropped(targets: seq<Id>, room: map<Id, nat>): nat {
    if targets == [] then 0 else
    var last := |targets| - 1;
    Dropped(targets[..last], room) + if targets[last] in room && !Taken(targets, last, room) then 1 else 0
  }

  /** What one message adds to noRecip: each dropped push, and once more if nobody got it. */
  ghost function Failures(targets: seq<Id>, room: map<Id, nat>): nat {
    if targets == [] then 0 else Dropped(targets, room) + if Matched(targets, room) == 0 then 1 else 0
  }

  /** How many of the pushes to id succeed. */
  ghost function Received(targets: seq<Id>, id: Id, room: nat): nat {
    if Occurrences(targets, id) < room then Occurrences(targets, id) else room
  }

  ghost function Copies(m: Buffer, n: nat): (s: seq<Buffer>)
    ensures |s| == n && forall x :: x in s ==> x == m
  {
    seq(n, _ => m)
  }

  /** The queues once m has been pushed to all targets that can take it. */
  ghost function QueuesAfter(
      targets: seq<Id>, m: Buffer, room: map<Id, nat>, queues: map<Id, seq<Buffer>>): (r: map<Id, seq<Buffer>>)
    requires room.Keys == queues.Keys
    ensures r.Keys == queues.Keys
  {
    map k | k in queues :: queues[k] + Copies(m, Received(targets, k, room[k]))
  }

  ghost function RoomAfter(targets: seq<Id>, room: map<Id, nat>): (r: map<Id, nat>)
    ensures r.Keys == room.Keys
  {
    map k | k in room :: room[k] - Received(targets, k, room[k])
  }

  lemma ReceivedNext(targets: seq<Id>, i: nat, id: Id, room: nat)
    requires i < |targets|
    ensures Received(targets[..i + 1], id, room) == Received(targets[..i], id, room)
      + if targets[i] == id && Occurrences(targets[..i], id) < room then 1 else 0
  {
    assert targets[..i + 1][..i] == targets[..i];
  }

  lemma CopiesNext(q: seq<Buffer>, m: Buffer, n: nat)
    ensures q + Copies(m, n + 1) == q + Copies(m, n) + [m]
  {
  }

  /** The loop's next turn, in the counters. */
  lemma CountsNext(targets: seq<Id>, i: nat, room: map<Id, nat>)
    requires i < |targets|
    ensures var (now, next, id, taken) := (targets[..i], targets[..i + 1], targets[i], Taken(targets, i, room));
      && Matched(next, room) == Matched(now, room) + (if taken then 1 else 0)
      && Dropped(next, room) == Dropped(now, room) + (if id in room && !taken then 1 else 0)
  {
    assert targets[..i + 1][..i] == targets[..i];
  }

  /** The loop's next turn, in the room there is. */
  lemma RoomNext(targets: seq<Id>, i: nat, room: map<Id, nat>)
    requires i < |targets|
    ensures var (now, next, id) := (RoomAfter(targets[..i], room), RoomAfter(targets[..i + 1], room), targets[i]);
      && (Taken(targets, i, room) <==> id in room && now[id] > 0)
      && next == if Taken(targets, i, room) then now[id := now[id] - 1] else now
  {
    hide Occurrences;
    var now, next := RoomAfter(targets[..i], room), RoomAfter(targets[..i + 1], room);
    forall k | k in room
      ensures next[k] == if k == targets[i] && Taken(targets, i, room) then now[k] - 1 else now[k]
    {
      ReceivedNext(targets, i, k, room[k]);
    }
  }

  /** The loop's next turn, in the queues. */
  lemma QueuesNext(targets: seq<Id>, i: nat, m: Buffer, room: map<Id, nat>, queues: map<Id, seq<Buffer>>)
    requires i < |targets| && room.Keys == queues.Keys
    ensures var (now, next, id) :=
        (QueuesAfter(targets[..i], m, room, queues), QueuesAfter(targets[..i + 1], m, room, queues), targets[i]);
      next == if Taken(targets, i, room) then now[id := now[id] + [m]] else now
  {
    hide Received, Copies, Occurrences;
    var now, next := QueuesAfter(targets[..i], m, room, queues), QueuesAfter(targets[..i + 1], m, room, queues);
    forall k | k in queues
      ensures next[k] == if k == targets[i] && Taken(targets, i, room) then now[k] + [m] else now[k]
    {
      ReceivedNext(targets, i, k, room[k]);
      CopiesNext(queues[k], m, Received(targets[..i], k, room[k]));
    }
  }

  /** What one turn of the loop does to room and queues. */
  ghost predicate OnePush(
      room: map<Id, nat>, queues: map<Id, seq<Buffer>>, room': map<Id, nat>, queues': map<Id, seq<Buffer>>,
      target: Id, m: Buffer, pushed: bool)
  {
    && (pushed <==> target in room && room[target] > 0)
    && if pushed then
         target in queues && room' == room[target := room[target] - 1]
         && queues' == queues[target := queues[target] + [m]]
       else
         room' == room && queues' == queues
  }

  /** The loop after i targets: counts, room and queues. */
  ghost predicate LoopAt(
      targets: seq<Id>, i: nat, m: Buffer, room: map<Id, nat>, queues: map<Id, seq<Buffer>>,
      matched: nat, dropped: nat, room': map<Id, nat>, queues': map<Id, seq<Buffer>>)
    requires i <= |targets| && room.Keys == queues.Keys
  {
    && matched == Matched(targets[..i], room) && dropped == Dropped(targets[..i], room)
    && room' == RoomAfter(targets[..i], room)
    && queues' == QueuesAfter(targets[..i], m, room, queues)
  }

  lemma LoopNext(
      targets: seq<Id>, i: nat, m: Buffer, room: map<Id, nat>, queues: map<Id, seq<Buffer>>,
      matched: nat, dropped: nat, room1: map<Id, nat>, queues1: map<Id, seq<Buffer>>,
      room2: map<Id, nat>, queues2: map<Id, seq<Buffer>>, pushed: bool)
    requires i < |targets| && room.Keys == queues.Keys
    requires LoopAt(targets, i, m, room, queues, matched, dropped, room1, queues1)
    requires OnePush(room1, queues1, room2, queues2, targets[i], m, pushed)
    ensures LoopAt(targets, i + 1, m, room, queues, matched + (if pushed then 1 else 0),
      dropped + (if targets[i] in room && !pushed then 1 else 0), room2, queues2)
  {
    hide Matched, Dropped, RoomAfter, QueuesAfter, Taken;
    CountsNext(targets, i, room);
    RoomNext(targets, i, room);
    QueuesNext(targets, i, m, room, queues);
  }

  lemma LoopStart(targets: seq<Id>, m: Buffer, room: map<Id, nat>, queues: map<Id, seq<Buffer>>)
    requires room.Keys == queues.Keys
    ensures LoopAt(targets, 0, m, room, queues, 0, 0, room, queues)
  {
    NothingPushed(m, room, queues);
    assert targets[..0] == [];
  }

  lemma LoopDone(
      targets: seq<Id>, m: Buffer, room: map<Id, nat>, queues: map<Id, seq<Buffer>>,
      matched: nat, dropped: nat, room': map<Id, nat>, queues': map<Id, seq<Buffer>>)
    requires room.Keys == queues.Keys && LoopAt(targets, |targets|, m, room, queues, matched, dropped, room', queues')
    ensures matched == Matched(targets, room) && dropped == Dropped(targets, room)
    ensures queues' == QueuesAfter(targets, m, room, queues)
  {
    assert targets[..|targets|] == targets;
  }

  lemma NothingPushed(m: Buffer, room: map<Id, nat>, queues: map<Id, seq<Buffer>>)
    requires room.Keys == queues.Keys
    ensures RoomAfter([], room) == room && QueuesAfter([], m, room, queues) == queues
  {
    forall k | k in queues ensures queues[k] + Copies(m, 0) == queues[k] {
    }
  }

  // --- What these functions mean ---

  lemma {:induction false} DistinctOccurs(targets: seq<Id>, id: Id)
    requires Distinct(targets)
    ensures Occurrences(targets, id) == if id in targets then 1 else 0
  {
    if targets != [] {
      var front, last := targets[..|targets| - 1], targets[|targets| - 1];
      DistinctOccurs(front, last);
      DistinctOccurs(front, id);
      assert targets == front + [last];
    }
  }

  /** With distinct targets each registered one that is open and has room gets the message
      once, and all other queues stay as they are. */
  lemma OneCopyEach(targets: seq<Id>, m: Buffer, room: map<Id, nat>, queues: map<Id, seq<Buffer>>, k: Id)
    requires Distinct(targets) && room.Keys == queues.Keys && k in queues
    ensures QueuesAfter(targets, m, room, queues)[k]
      == if k in targets && room[k] > 0 then queues[k] + [m] else queues[k]
  {
    DistinctOccurs(targets, k);
    assert Copies(m, 1) == [m] && Copies(m, 0) == [];
  }

  /** How many copies the queues of the connectors ks receive. */
  ghost function TotalReceived(ks: seq<Id>, targets: seq<Id>, room: map<Id, nat>): nat
    requires forall k :: k in ks ==> k in room
  {
    if ks == [] then 0 else
    var last := |ks| - 1;
    TotalReceived(ks[..last], targets, room) + Received(targets, ks[last], room[ks[last]])
  }

  lemma {:induction false} TotalNext(ks: seq<Id>, targets: seq<Id>, i: nat, room: map<Id, nat>)
    requires i < |targets| && Distinct(ks) && forall k :: k in ks ==> k in room
    ensures TotalReceived(ks, targets[..i + 1], room)
      == TotalReceived(ks, targets[..i], room) + if targets[i] in ks && Taken(targets, i, room) then 1 else 0
    decreases ks
  {
    if ks != [] {
      var front, last := ks[..|ks| - 1], ks[|ks| - 1];
      assert ks == front + [last];
      TotalNext(front, targets, i, room);
      ReceivedNext(targets, i, last, room[last]);
    }
  }

  /** The references taken are the copies queued, whatever the targets. */
  lemma {:induction false} ReferencesAreCopies(ks: seq<Id>, targets: seq<Id>, i: nat, room: map<Id, nat>)
    requires i <= |targets| && Distinct(ks) && forall k :: k in ks <==> k in room
    ensures Matched(targets[..i], room) == TotalReceived(ks, targets[..i], room)
  {
    if i == 0 {
      NothingReceived(ks, room);
    } else {
      ReferencesAreCopies(ks, targets, i - 1, room);
      CountsNext(targets, i - 1, room);
      TotalNext(ks, targets, i - 1, room);
    }
  }

  lemma {:induction false} NothingReceived(ks: seq<Id>, room: map<Id, nat>)
    requires forall k :: k in ks ==> k in room
    ensures TotalReceived(ks, [], room) == 0
  {
    if ks != [] {
      NothingReceived(ks[..|ks| - 1], room);
    }
  }

  /** A single-recipient message adds one to noRecip when nobody is registered, but two when its
      push is dropped; only then does noRecip overstate the messages that got lost. */
  lemma SingleTarget(id: Id, room: map<Id, nat>)
    ensures Failures([id], room) == if id !in room then 1 else if room[id] == 0 then 2 else 0
    ensures Failures([id], room) + Matched([id], room) == 1 <==> id !in room || room[id] > 0
  {
    CountsNext([id], 0, room);
    assert [id][..0] == [] && [id][..1] == [id];
  }

  /** Retain, push, and undo the Retain if the push was dropped. */
  method DeliverTo(dest: WSConnector, m: Buffer) returns (pushed: bool)
    modifies dest`queue, m
    ensures pushed <==> old(dest.Room()) > 0
    ensures dest.queue == if pushed then old(dest.queue) + [m] else old(dest.queue)
    ensures dest.Room() == old(dest.Room()) - (if pushed then 1 else 0)
    ensures old(m.refs) > 0 ==> m.refs == (if pushed then old(m.refs) + 1 else old(m.refs)) && m.data == old(m.data)
  {
    m.Retain();
    pushed := dest.SafePush(m);
    if !pushed {
      var _ := m.Release();
    }
  }

  /** ExtractTargets into an array of its own. */
  method Extracted(msg: seq<byte>, self: Id) returns (targets: seq<Id>)
    ensures targets == Recipients(msg, self)
  {
    var dst := new Id[MAX_TARGETS](_ => Zeros(ID_SIZE));
    var n := ExtractTargets(msg, self, dst);
    targets := dst[..n];
  }

  predicate OwnKeys(conns: map<Id, WSConnector>) {
    forall k :: k in conns ==> conns[k].pubKey == k
  }

  /** What there is to know about a connector's channel. */
  datatype Port = Port(queue: seq<Buffer>, room: nat)

  ghost function PortsOf(conns: map<Id, WSConnector>): (p: map<Id, Port>)
    reads conns.Values
    ensures p.Keys == conns.Keys
  {
    map k | k in conns :: Port(conns[k].queue, conns[k].Room())
  }

  ghost function Rooms(ports: map<Id, Port>): (r: map<Id, nat>)
    ensures r.Keys == ports.Keys
  {
    map k | k in ports :: ports[k].room
  }

  ghost function Queues(ports: map<Id, Port>): (q: map<Id, seq<Buffer>>)
    ensures q.Keys == ports.Keys
  {
    map k | k in ports :: ports[k].queue
  }

  ghost function RoomsOf(conns: map<Id, WSConnector>): (r: map<Id, nat>)
    reads conns.Values
    ensures r.Keys == conns.Keys
  {
    Rooms(PortsOf(conns))
  }

  ghost function QueuesOf(conns: map<Id, WSConnector>): (q: map<Id, seq<Buffer>>)
    reads conns.Values
    ensures q.Keys == conns.Keys
  {
    Queues(PortsOf(conns))
  }

  class Relayer {
    var connectors: map<Id, WSConnector>
    var connCount: int
    var processed: nat
    var delivered: nat
    var noRecip: nat

    /** Connectors sit under their own keys, and the counter mirrors the registry. */
    ghost predicate Valid()
      reads `connectors, `connCount
    {
      && OwnKeys(connectors)
      && connCount == |connectors|
    }

    constructor ()
      ensures Valid() && connectors == map[] && processed == delivered == noRecip == 0
    {
      connectors, connCount, processed, delivered, noRecip := map[], 0, 0, 0, 0;
    }

    /** A reconnect under the same key replaces the entry and does not count twice. */
    method OnConnect(pubKey: Id, c: WSConnector)
      requires Valid() && c.pubKey == pubKey
      modifies `connectors, `connCount
      ensures Valid() && connectors == old(connectors)[pubKey := c]
    {
      var loaded := pubKey in connectors;
      MapSizes(connectors, pubKey, c);
      assert OwnKeys(connectors[pubKey := c]);
      connectors := connectors[pubKey := c];
      if !loaded {
        connCount := connCount + 1;
      }
    }

    /** Removes c, but never a connector that has replaced it. */
    method OnDisconnect(pubKey: Id, c: WSConnector)
      requires Valid()
      modifies `connectors, `connCount
      ensures Valid()
      ensures connectors == if pubKey in old(connectors) && old(connectors)[pubKey] == c
        then old(connectors) - {pubKey} else old(connectors)
    {
      MapSizes(connectors, pubKey, c);
      if pubKey in connectors && connectors[pubKey] == c {
        connectors := connectors - {pubKey};
        connCount := connCount - 1;
      }
    }

    method Count() returns (n: int)
      ensures n == connCount && (Valid() ==> n == |connectors|)
    {
      n := connCount;
    }

    method GetConnectorByKey(pubKey: Id) returns (c: Option<WSConnector>)
      ensures c == if pubKey in connectors then Some(connectors[pubKey]) else None
    {
      if pubKey in connectors {
        return Some(connectors[pubKey]);
      }
      return None;
    }

    /** DeliverTo a registered connector. */
    method PushToRegistered(m: Buffer, target: Id, dest: WSConnector) returns (pushed: bool)
      requires Valid() && m.refs > 0 && target in connectors && connectors[target] == dest
      modifies dest`queue, m
      ensures Valid() && m.data == old(m.data)
      ensures m.refs == old(m.refs) + if pushed then 1 else 0
      ensures OnePush(old(RoomsOf(connectors)), old(QueuesOf(connectors)),
        RoomsOf(connectors), QueuesOf(connectors), target, m, pushed)
    {
      hide OnePush, WSConnector.Room, Rooms, Queues;
      ghost var ports := PortsOf(connectors);
      pushed := DeliverTo(dest, m);
      ghost var ports' := PortsOf(connectors);
      forall k | k in connectors && k != target ensures ports'[k] == ports[k] {
        assert connectors[k].pubKey != dest.pubKey;
      }
      OnlyOne(ports, ports', target, m, pushed);
    }

    /** One turn of the loop over the targets. */
    method PushToOne(m: Buffer, target: Id) returns (pushed: bool)
      requires Valid() && m.refs > 0
      modifies `noRecip, connectors.Values, m
      ensures Valid() && m.data == old(m.data)
      ensures m.refs == old(m.refs) + if pushed then 1 else 0
      ensures noRecip == old(noRecip) + if target in old(RoomsOf(connectors)) && !pushed then 1 else 0
      ensures OnePush(old(RoomsOf(connectors)), old(QueuesOf(connectors)),
        RoomsOf(connectors), QueuesOf(connectors), target, m, pushed)
    {
      hide OwnKeys, RoomsOf, QueuesOf;
      pushed := false;
      if target in connectors {
        pushed := PushToRegistered(m, target, connectors[target]);
        if !pushed {
          noRecip := noRecip + 1;
        }
      }
    }

    /** The loop over the extracted targets. */
    method PushToAll(m: Buffer, targets: seq<Id>) returns (matched: nat)
      requires Valid() && m.refs > 0
      modifies `noRecip, connectors.Values, m
      ensures Valid() && m.data == old(m.data)
      ensures matched == Matched(targets, old(RoomsOf(connectors))) && m.refs == old(m.refs) + matched
      ensures noRecip == old(noRecip) + Dropped(targets, old(RoomsOf(connectors)))
      ensures QueuesOf(connectors)
        == QueuesAfter(targets, m, old(RoomsOf(connectors)), old(QueuesOf(connectors)))
    {
      hide OwnKeys, PortsOf, Rooms, Queues, OnePush, LoopAt, Matched, Dropped, QueuesAfter;
      ghost var (room, queues) := (RoomsOf(connectors), QueuesOf(connectors));
      ghost var dropped := 0;
      LoopStart(targets, m, room, queues);
      matched := 0;
      var i := 0;
      while i < |targets|
        invariant 0 <= i <= |targets| && Valid() && m.data == old(m.data)
        invariant m.refs == old(m.refs) + matched && noRecip == old(noRecip) + dropped
        invariant LoopAt(targets, i, m, room, queues, matched, dropped, RoomsOf(connectors), QueuesOf(connectors))
      {
        ghost var ports := PortsOf(connectors);
        var pushed := PushToOne(m, targets[i]);
        ghost var ports' := PortsOf(connectors);
        LoopNext(targets, i, m, room, queues, matched, dropped, Rooms(ports), Queues(ports),
          Rooms(ports'), Queues(ports'), pushed);
        if pushed {
          matched := matched + 1;
        } else if targets[i] in room {
          dropped := dropped + 1;
        }
        i := i + 1;
      }
      LoopDone(targets, m, room, queues, matched, dropped, RoomsOf(connectors), QueuesOf(connectors));
    }

    /** The part of HandleMessage for messages that have recipients. */
    method Distribute(m: Buffer, targets: seq<Id>)
      requires Valid() && m.refs > 0 && m.data != null && targets != []
      modifies `processed, `noRecip, connectors.Values, m, m.data
      ensures Valid() && m.data == old(m.data) && m.data[..] == Zeroed(old(m.data[..]))
      ensures processed == old(processed) + 1
      ensures m.refs == old(m.refs) + Matched(targets, old(RoomsOf(connectors)))
      ensures noRecip == old(noRecip) + Failures(targets, old(RoomsOf(connectors)))
      ensures QueuesOf(connectors) == QueuesAfter(targets, m, old(RoomsOf(connectors)), old(QueuesOf(connectors)))
    {
      hide OwnKeys, PortsOf, Rooms, Queues, QueuesAfter, Matched, Dropped, Zeroed;
      ghost var ports := PortsOf(connectors);
      processed := processed + 1;
      ZeroToIDs(m.data);
      assert PortsOf(connectors) == ports;
      var matched := PushToAll(m, targets);
      CountUnmatched(matched);
    }

    method CountUnmatched(matched: nat)
      requires Valid()
      modifies `noRecip
      ensures Valid() && QueuesOf(connectors) == old(QueuesOf(connectors))
      ensures noRecip == old(noRecip) + if matched == 0 then 1 else 0
    {
      hide QueuesOf;
      if matched == 0 {
        noRecip := noRecip + 1;
      }
    }

    /** Routes one message: wipes the recipients, then pushes to each of them. A message without
        recipients leaves no trace. */
    method HandleMessage(from: WSConnector, m: Buffer)
      requires Valid() && m.refs > 0
      modifies `processed, `noRecip, connectors.Values, m, if m.data == null then {} else {m.data}
      ensures Valid() && m.data == old(m.data)
      ensures var targets := Recipients(old(m.Bytes()), from.pubKey);
        && QueuesOf(connectors) == QueuesAfter(targets, m, old(RoomsOf(connectors)), old(QueuesOf(connectors)))
        && m.refs == old(m.refs) + Matched(targets, old(RoomsOf(connectors)))
        && m.Bytes() == (if targets == [] then old(m.Bytes()) else Zeroed(old(m.Bytes())))
        && processed == old(processed) + (if targets == [] then 0 else 1)
        && noRecip == old(noRecip) + Failures(targets, old(RoomsOf(connectors)))
    {
      hide OwnKeys, RoomsOf, QueuesOf;
      ghost var (room, queues) := (RoomsOf(connectors), QueuesOf(connectors));
      NothingPushed(m, room, queues);
      var targets := Extracted(m.Bytes(), from.pubKey);
      assert RoomsOf(connectors) == room && QueuesOf(connectors) == queues && Valid();
      if targets == [] {
        return;
      }
      Distribute(m, targets);
    }
  }

  /** A push that changes one port is one turn of the loop. */
  lemma OnlyOne(ports: map<Id, Port>, ports': map<Id, Port>, k: Id, m: Buffer, pushed: bool)
    requires ports.Keys == ports'.Keys && k in ports
    requires forall j :: j in ports && j != k ==> ports'[j] == ports[j]
    requires pushed <==> ports[k].room > 0
    requires ports'[k] == if pushed then Port(ports[k].queue + [m], ports[k].room - 1) else ports[k]
    ensures OnePush(Rooms(ports), Queues(ports), Rooms(ports'), Queues(ports'), k, m, pushed)
  {
    RoomUpdate(ports, ports', k);
    QueueUpdate(ports, ports', k);
    SameUpdate(Rooms(ports), k);
    SameUpdate(Queues(ports), k);
    assert k in Rooms(ports) && Rooms(ports)[k] == ports[k].room;
    assert k in Queues(ports) && Queues(ports)[k] == ports[k].queue;
    hide Rooms, Queues;
  }

  lemma SameUpdate<V>(m: map<Id, V>, k: Id)
    requires k in m
    ensures m[k := m[k]] == m
  {
  }

  lemma RoomUpdate(ports: map<Id, Port>, ports': map<Id, Port>, k: Id)
    requires ports.Keys == ports'.Keys && k in ports
    requires forall j :: j in ports && j != k ==> ports'[j] == ports[j]
    ensures Rooms(ports') == Rooms(ports)[k := ports'[k].room]
  {
  }

  lemma QueueUpdate(ports: map<Id, Port>, ports': map<Id, Port>, k: Id)
    requires ports.Keys == ports'.Keys && k in ports
    requires forall j :: j in ports && j != k ==> ports'[j] == ports[j]
    ensures Queues(ports') == Queues(ports)[k := ports'[k].queue]
  {
  }
}
