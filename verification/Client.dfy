/** The command-line client: splitting a line into frames, and reading a delivered frame. */
module Client {
  import opened Wire
  import opened Message
  import opened Codec

  const CHUNK: nat := 32 * 1024

  function Addressed(recipients: seq<Id>): (ids: seq<Id>)
    ensures |ids| <= MAX_TARGETS
  {
    if |recipients| > MAX_TARGETS then recipients[..MAX_TARGETS] else recipients
  }

  function ChunkEnd(payload: seq<byte>, off: nat): (end: nat)
    requires off < |payload|
    ensures off < end <= |payload| && end - off <= CHUNK
  {
    if off + CHUNK > |payload| then |payload| else off + CHUNK
  }

  /** The payload from off on, cut every CHUNK bytes. */
  function ChunksFrom(payload: seq<byte>, off: nat): (cs: seq<seq<byte>>)
    ensures forall c :: c in cs ==> 0 < |c| <= CHUNK
    ensures cs == [] <==> off >= |payload|
    decreases |payload| - off
  {
    if off >= |payload| then [] else
    [payload[off..ChunkEnd(payload, off)]] + ChunksFrom(payload, off + CHUNK)
  }

  function Chunks(payload: seq<byte>): seq<seq<byte>> {
    ChunksFrom(payload, 0)
  }

  function Concat(parts: seq<seq<byte>>): seq<byte> {
    if parts == [] then [] else parts[0] + Concat(parts[1..])
  }

  function FramesFrom(ids: seq<Id>, payload: seq<byte>, off: nat): (fs: seq<seq<byte>>)
    requires |ids| <= MAX_TARGETS
    decreases |payload| - off
  {
    if off >= |payload| then [] else
    [Frame(ids, payload[off..ChunkEnd(payload, off)])] + FramesFrom(ids, payload, off + CHUNK)
  }

  function Frames(recipients: seq<Id>, payload: seq<byte>): seq<seq<byte>> {
    FramesFrom(Addressed(recipients), payload, 0)
  }

  lemma {:induction false} FramesCarryChunks(ids: seq<Id>, payload: seq<byte>, off: nat)
    requires |ids| <= MAX_TARGETS
    ensures |FramesFrom(ids, payload, off)| == |ChunksFrom(payload, off)|
    ensures forall i :: 0 <= i < |ChunksFrom(payload, off)| ==>
      && |ChunksFrom(payload, off)[i]| <= CHUNK
      && FramesFrom(ids, payload, off)[i] == Frame(ids, ChunksFrom(payload, off)[i])
    decreases |payload| - off
  {
    hide Frame;
    if off < |payload| {
      FramesCarryChunks(ids, payload, off + CHUNK);
    }
  }

  lemma {:induction false} ChunksConcat(payload: seq<byte>, off: nat)
    requires off <= |payload|
    ensures Concat(ChunksFrom(payload, off)) == payload[off..]
    decreases |payload| - off
  {
    if off + CHUNK <= |payload| {
      ChunksConcat(payload, off + CHUNK);
    }
  }

  method BuildFrame(recipients: seq<Id>, chunk: seq<byte>) returns (frame: seq<byte>)
    requires |chunk| < UINT32_LIMIT
    ensures frame == Frame(Addressed(recipients), chunk)
  {
    var n: nat := |recipients|;
    if n > MAX_TARGETS {
      n := MAX_TARGETS;
    }
    frame := [n];
    for i := 0 to n
      invariant frame == [n] + Flatten(recipients[..i])
    {
      assert recipients[..i + 1][..i] == recipients[..i];
      frame := frame + recipients[i];
    }
    assert recipients[..n] == Addressed(recipients);
    frame := frame + PutUint32(|chunk|);
    frame := frame + chunk;
  }

  /** Writes one frame per chunk until the payload is used up or a write fails; the first
      writable writes succeed. */
  method SendLine(recipients: seq<Id>, payload: seq<byte>, writable: nat) returns (sent: seq<seq<byte>>)
    ensures sent <= Frames(recipients, payload)
    ensures |sent| == |Frames(recipients, payload)| || |sent| == writable < |Frames(recipients, payload)|
  {
    sent := [];
    ghost var all, left := Frames(recipients, payload), Frames(recipients, payload);
    var off := 0;
    while off < |payload|
      invariant 0 <= off
      invariant left == FramesFrom(Addressed(recipients), payload, off)
      invariant sent + left == all && |sent| <= writable
    {
      var end := off + CHUNK;
      if end > |payload| {
        end := |payload|;
      }
      var frame := BuildFrame(recipients, payload[off..end]);
      if |sent| == writable {
        return;
      }
      sent, left := sent + [frame], left[1..];
      off := off + CHUNK;
    }
  }

  datatype Inbound = Ignored | Inbound(from: Id, payload: seq<byte>)

  function Decode(data: seq<byte>): Inbound {
    if |data| < 37 then Ignored else
    var from := data[..32];
    var nTo: nat := data[32];
    var dataLenOff := 33 + nTo * 32;
    if dataLenOff + 4 > |data| then Ignored else
    var payloadLen := Uint32(data[dataLenOff..dataLenOff + 4]);
    var start := dataLenOff + 4;
    if start + payloadLen > |data| then Ignored else
    Inbound(from, data[start..start + payloadLen])
  }

  /** The client reads a message exactly as the server's own view does. */
  lemma DecodeAgreesWithMessage(m: seq<byte>)
    ensures Decode(m) == (match Payload(m)
                          case None => Ignored
                          case Some(p) => Inbound(FromId(m), p))
  {
  }

  /** What a recipient reads of a frame the server got from a connection authenticated as from. */
  function Relayed(from: Id, frame: seq<byte>): Inbound {
    match Parse(from, frame, Eof, MAX_MESSAGE_SIZE)
    case Accepted(m) => Decode(Zeroed(m))
    case Rejected(_) => Ignored
  }

  lemma FrameRoundTrip(from: Id, ids: seq<Id>, data: seq<byte>)
    requires 1 <= |ids| <= MAX_TARGETS && Distinct(ids) && |data| <= MAX_MESSAGE_SIZE
    ensures Relayed(from, Frame(ids, data)) == Inbound(from, data)
  {
    var f := Frame(ids, data);
    assert IsFrame(f, ids, data, MAX_MESSAGE_SIZE);
    AcceptsExactlyTheGrammar(from, f, Eof, MAX_MESSAGE_SIZE);
    ZeroedIsDelivered(from, ids, data);
    DeliveredFields(from, |ids|, data);
    DecodeAgreesWithMessage(Delivered(from, |ids|, data));
  }

  /** End to end: every frame arrives under the sender's key, and the payloads concatenate to
      what was typed. */
  lemma RoundTrip(from: Id, recipients: seq<Id>, payload: seq<byte>)
    requires recipients != [] && Distinct(Addressed(recipients))
    ensures var fs := Frames(recipients, payload);
      && |fs| == |Chunks(payload)|
      && (forall i :: 0 <= i < |fs| ==> Relayed(from, fs[i]) == Inbound(from, Chunks(payload)[i]))
      && Concat(seq(|fs|, i requires 0 <= i < |fs| =>
           if Relayed(from, fs[i]).Inbound? then Relayed(from, fs[i]).payload else [])) == payload
  {
    var fs := Frames(recipients, payload);
    FramesCarryChunks(Addressed(recipients), payload, 0);
    forall i | 0 <= i < |fs| ensures Relayed(from, fs[i]) == Inbound(from, Chunks(payload)[i]) {
      FrameRoundTrip(from, Addressed(recipients), Chunks(payload)[i]);
    }
    var back := seq(|fs|, i requires 0 <= i < |fs| =>
      if Relayed(from, fs[i]).Inbound? then Relayed(from, fs[i]).payload else []);
    assert back == Chunks(payload);
    ChunksConcat(payload, 0);
  }

  /** The server takes a client's frames precisely when it addresses somebody, and nobody twice. */
  lemma FramesAcceptedIff(from: Id, recipients: seq<Id>, payload: seq<byte>)
    requires payload != []
    ensures (forall f :: f in Frames(recipients, payload) ==> Parse(from, f, Eof, MAX_MESSAGE_SIZE).Accepted?)
      <==> recipients != [] && Distinct(Addressed(recipients))
  {
    var ids, fs := Addressed(recipients), Frames(recipients, payload);
    FramesCarryChunks(ids, payload, 0);
    forall i | 0 <= i < |fs|
      ensures Parse(from, fs[i], Eof, MAX_MESSAGE_SIZE).Accepted? <==> ids != [] && Distinct(ids)
    {
      var data := Chunks(payload)[i];
      if ids != [] && Distinct(ids) {
        assert IsFrame(fs[i], ids, data, MAX_MESSAGE_SIZE);
      }
      AcceptsExactlyTheGrammar(from, fs[i], Eof, MAX_MESSAGE_SIZE);
      if Parse(from, fs[i], Eof, MAX_MESSAGE_SIZE).Accepted? {
        var ids', data' := AcceptedIsFrame(from, fs[i], Eof, MAX_MESSAGE_SIZE);
        FrameInjective(ids, data, ids', data');
      }
    }
    assert fs[0] in fs;
  }
}
