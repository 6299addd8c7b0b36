/** WSConnector as an object: its channel, its Close, and its write pump run to the end. */
module Connector {
  import opened Wire
  import opened Memory
  import opened Folds

  class WSConnector {
    const pubKey: Id
    const cap: nat
    var queue: seq<Buffer>
    var isClosed: bool
    var chanClosed: bool

    ghost predicate Valid()
      reads this
    {
      chanClosed == isClosed && |queue| <= cap
    }

    /** SafePush would succeed this often in a row. */
    ghost function Room(): (r: nat)
      reads this
      ensures r > 0 <==> !isClosed && |queue| < cap
    {
      if isClosed || |queue| >= cap then 0 else cap - |queue|
    }

    constructor (pubKey: Id, outBufSize: int)
      ensures Valid() && this.pubKey == pubKey && cap == EffectiveCap(outBufSize)
      ensures queue == [] && !isClosed && Room() == cap
      ensures cap == if outBufSize > 0 then outBufSize else 256
    {
      var size := outBufSize;
      if size <= 0 {
        size := 256;
      }
      this.pubKey, cap := pubKey, size;
      queue, isClosed, chanClosed := [], false, false;
    }

    /** Drops the message when the channel is full or the connector closed. */
    method SafePush(msg: Buffer) returns (ok: bool)
      modifies `queue
      ensures ok <==> !isClosed && |old(queue)| < cap
      ensures ok <==> old(Room()) > 0
      ensures queue == if ok then old(queue) + [msg] else old(queue)
      ensures Room() == old(Room()) - (if ok then 1 else 0)
      ensures old(Valid()) ==> Valid()
    {
      if isClosed {
        return false;
      }
      if |queue| < cap {
        queue := queue + [msg];
        return true;
      }
      return false;
    }

    /** Closing twice is harmless; panicked is what close() of a closed channel does. */
    method Close() returns (panicked: bool)
      requires Valid()
      modifies `isClosed, `chanClosed
      ensures Valid() && isClosed && !panicked
    {
      if isClosed {
        return false;
      }
      isClosed := true;
      panicked := chanClosed;
      chanClosed := true;
    }

    /** The queue owns one reference per entry. */
    ghost predicate OwnsQueue()
      reads this, queue
    {
      forall b :: b in queue ==> b.refs >= Occurrences(queue, b)
    }

    /** Receives the next message, reads its bytes, and releases it. */
    method Take() returns (bytes: seq<byte>, panicked: bool)
      requires queue != [] && queue[0].refs > 0
      modifies `queue, queue[0]
      ensures queue == old(queue)[1..] && bytes == old(queue[0].Bytes()) && !panicked
      ensures var m := old(queue)[0];
        m.refs == old(m.refs) - 1 && m.data == if m.refs == 0 then null else old(m.data)
    {
      var msg := queue[0];
      queue := queue[1..];
      bytes := msg.Bytes();
      panicked := msg.Release();
    }

    /** What is left in the channel is released, not written. */
    method Drain() returns (panicked: bool)
      requires OwnsQueue()
      modifies `queue, queue
      ensures queue == [] && !panicked
      ensures forall b :: b in old(queue) ==> b.refs == old(b.refs) - Occurrences(old(queue), b)
      ensures forall b :: b in old(queue) ==> b.data == if b.refs == 0 then null else old(b.data)
    {
      ghost var q, i := queue, 0;
      RestMembers(q, 0);
      panicked := false;
      while queue != []
        invariant 0 <= i <= |q| && queue == q[i..] && !panicked
        invariant forall b :: b in q ==> b.refs == old(b.refs) - Occurrences(q, b) + Occurrences(q[i..], b)
        invariant forall b :: b in q ==> b.data == if b.refs == 0 then null else old(b.data)
        decreases |queue|
      {
        ReleaseNext(q, i);
        var _, p := Take();
        panicked := panicked || p;
        i := i + 1;
      }
    }

    /** The pump's loop up to its first failing write; each message is released once it is out. */
    method WriteQueued(writes: seq<bool>) returns (sent: seq<seq<byte>>, failed: bool, panicked: bool)
      requires |writes| >= |queue| && OwnsQueue()
      modifies `queue, queue
      ensures !panicked
      ensures |sent| + (if failed then 1 else 0) <= |old(queue)|
      ensures queue == if failed then old(queue)[|sent| + 1..] else []
      ensures if failed then !writes[|sent|] else |sent| == |old(queue)|
      ensures forall j :: 0 <= j < |sent| ==> writes[j] && sent[j] == old(queue[j].Bytes())
      ensures forall b :: b in old(queue) ==> b.refs == old(b.refs) - Occurrences(old(queue), b) + Occurrences(queue, b)
      ensures forall b :: b in old(queue) ==> b.data == if b.refs == 0 then null else old(b.data)
    {
      hide Occurrences;
      ghost var q := queue;
      RestMembers(q, 0);
      sent, failed, panicked := [], false, false;
      while queue != []
        invariant |sent| <= |q| && queue == q[|sent|..] && !failed && !panicked
        invariant forall b :: b in q ==> b.refs == old(b.refs) - Occurrences(q, b) + Occurrences(q[|sent|..], b)
        invariant forall b :: b in q ==> b.data == if b.refs == 0 then null else old(b.data)
        invariant forall j :: 0 <= j < |sent| ==> writes[j] && sent[j] == old(q[j].Bytes())
        decreases |queue|
      {
        ReleaseNext(q, |sent|);
        assert queue[0].Bytes() == old(q[|sent|].Bytes());
        var bytes;
        bytes, panicked := Take();
        if !writes[|sent|] {
          failed := true;
          return;
        }
        sent := sent + [bytes];
      }
    }

    /** The write pump, from a state in which nobody pushes any more, until the channel is empty:
        the first failing write closes the connector, and the rest of the queue is only released. */
    method WritePump(writes: seq<bool>) returns (sent: seq<seq<byte>>, failed: bool, panicked: bool)
      requires Valid() && |writes| >= |queue| && OwnsQueue()
      modifies this, queue
      ensures Valid() && queue == [] && !panicked
      ensures forall b :: b in old(queue) ==> b.refs == old(b.refs) - Occurrences(old(queue), b)
      ensures forall b :: b in old(queue) ==> b.data == if b.refs == 0 then null else old(b.data)
      ensures |sent| <= |old(queue)| && (failed <==> |sent| < |old(queue)|)
      ensures failed ==> !writes[|sent|]
      ensures isClosed == (failed || old(isClosed))
      ensures forall j :: 0 <= j < |sent| ==> writes[j] && sent[j] == old(queue[j].Bytes())
    {
      ghost var q := queue;
      sent, failed, panicked := WriteQueued(writes);
      if failed {
        var again := Close();
        RestMembers(q, |sent| + 1);
        panicked := Drain();
        panicked := panicked || again;
      }
    }
  }

  /** A buffer is in what is left of the queue iff it occurs there. */
  lemma RestMembers(q: seq<Buffer>, i: nat)
    requires i <= |q|
    ensures i == 0 ==> q[i..] == q
    ensures forall b: Buffer :: b in q ==> (b in q[i..] <==> Occurrences(q[i..], b) > 0)
  {
    forall b: Buffer | b in q {
      OccurrencesPositive(q[i..], b);
    }
  }

  /** The first entry of what is left of the queue holds a reference. */
  lemma ReleaseNext(q: seq<Buffer>, i: nat)
    requires i < |q|
    ensures forall b: Buffer :: (b in q ==>
      Occurrences(q[i..], b) == Occurrences(q[i + 1..], b) + if b == q[i] then 1 else 0)
    ensures q[i] in q && q[i..][1..] == q[i + 1..]
  {
    assert q[i..][1..] == q[i + 1..];
    forall b: Buffer | b in q {
      OccurrencesTail(q[i..], b);
    }
  }
}
