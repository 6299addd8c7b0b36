/** Whom and what the client's frames carry, in terms of what the user has given it. */
module Addressing {
  import opened Wrappers
  import opened Wire
  import opened Message
  import opened Targets
  import opened Codec
  import opened Rejection
  import opened Client

  /** How many of the recipients fit into a frame. */
  function Fitting(recipients: seq<Id>): (n: nat)
    ensures n <= |recipients| && n <= MAX_TARGETS
    ensures n == |recipients| || n == MAX_TARGETS
  {
    if |recipients| < MAX_TARGETS then |recipients| else MAX_TARGETS
  }

  lemma AddressedAreFirst(recipients: seq<Id>)
    ensures Addressed(recipients) == recipients[..Fitting(recipients)]
  {
  }

  /** id is one of the first ten recipients. */
  ghost predicate Reached(recipients: seq<Id>, id: Id) {
    exists i :: 0 <= i < Fitting(recipients) && recipients[i] == id
  }

  /** The identities read back from a client's frame are its recipients, in order, up to the tenth;
      the data read back are the chunk. */
  lemma FrameNames(from: Id, recipients: seq<Id>, chunk: seq<byte>)
    requires |chunk| < UINT32_LIMIT
    ensures var m := from + Frame(Addressed(recipients), chunk);
      && ToIdsLen(m) == Fitting(recipients)
      && (forall i :: 0 <= i < Fitting(recipients) ==> ToIdAt(m, i) == recipients[i])
      && FromId(m) == from && Payload(m) == Some(chunk)
  {
    hide Frame, ToIdAt, ToIdsLen, FromId, Payload;
    StampedFields(from, Addressed(recipients), chunk);
    AddressedAreFirst(recipients);
  }

  /** The server routes a client's frame to exactly the first ten recipients, without the sender. */
  lemma FrameReaches(from: Id, recipients: seq<Id>, chunk: seq<byte>)
    requires |chunk| < UINT32_LIMIT
    ensures forall id :: id in Recipients(from + Frame(Addressed(recipients), chunk), from) <==>
      Reached(recipients, id) && id != from
  {
    hide Frame;
    NamedOfFrame(from, Addressed(recipients), chunk);
    AddressedAreFirst(recipients);
    WithoutMembers(Addressed(recipients), from);
    forall id: Id ensures id in Addressed(recipients) <==> Reached(recipients, id) {
      if id in Addressed(recipients) {
        var i :| 0 <= i < |Addressed(recipients)| && Addressed(recipients)[i] == id;
        assert recipients[i] == id;
      }
    }
  }

  /** Where a stretch of CHUNK bytes from lo on ends, or the payload if that comes first. */
  function StretchEnd(payload: seq<byte>, lo: nat): nat {
    if lo + CHUNK < |payload| then lo + CHUNK else |payload|
  }

  /** The chunks are consecutive stretches of CHUNK bytes, of which only the last may be shorter. */
  lemma {:induction false} ChunksAt(payload: seq<byte>, off: nat, i: nat)
    requires i < |ChunksFrom(payload, off)|
    ensures var lo := off + i * CHUNK;
      lo < |payload| && ChunksFrom(payload, off)[i] == payload[lo..StretchEnd(payload, lo)]
    ensures i < |ChunksFrom(payload, off)| - 1 <==> off + i * CHUNK + CHUNK < |payload|
    decreases i
  {
    hide StretchEnd;
    var rest := ChunksFrom(payload, off + CHUNK);
    if i == 0 {
      FirstChunk(payload, off);
    } else {
      ChunksAt(payload, off + CHUNK, i - 1);
      assert ChunksFrom(payload, off)[i] == rest[i - 1];
      assert off + CHUNK + (i - 1) * CHUNK == off + i * CHUNK;
    }
  }

  lemma FirstChunk(payload: seq<byte>, off: nat)
    requires off < |payload|
    ensures ChunksFrom(payload, off) != []
    ensures ChunksFrom(payload, off)[0] == payload[off..StretchEnd(payload, off)]
    ensures |ChunksFrom(payload, off)| > 1 <==> off + CHUNK < |payload|
  {
  }

  lemma FrameAnnounces(ids: seq<Id>, data: seq<byte>)
    requires 1 <= |ids| <= MAX_TARGETS && |data| < UINT32_LIMIT
    ensures Announces(Frame(ids, data), ids, |data|)
  {
    assert Frame(ids, data) == Head(ids, |data|) + data;
  }

  lemma FrameRefused(from: Id, ids: seq<Id>, data: seq<byte>)
    requires |ids| <= MAX_TARGETS && |data| < UINT32_LIMIT
    ensures ids == [] ==> Parse(from, Frame(ids, data), Eof, MAX_MESSAGE_SIZE) == Rejected(Skip)
    ensures !Distinct(ids) ==> Parse(from, Frame(ids, data), Eof, MAX_MESSAGE_SIZE) == Rejected(Invalid)
  {
    hide Parse, Announces;
    var f := Frame(ids, data);
    if ids == [] {
      SkippedIff(from, f, Eof, MAX_MESSAGE_SIZE);
    } else {
      FrameAnnounces(ids, data);
      InvalidIff(from, f, Eof, MAX_MESSAGE_SIZE);
    }
  }

  /** The server skips the frames of a line for nobody; those of a line that names somebody twice are
      invalid, which costs the client its connection. */
  lemma FramesRefused(from: Id, recipients: seq<Id>, payload: seq<byte>, f: seq<byte>)
    requires f in Frames(recipients, payload)
    ensures recipients == [] ==> Parse(from, f, Eof, MAX_MESSAGE_SIZE) == Rejected(Skip)
    ensures !Distinct(recipients[..Fitting(recipients)]) ==>
      Parse(from, f, Eof, MAX_MESSAGE_SIZE) == Rejected(Invalid)
  {
    hide Parse, Distinct, Frame, Addressed, Fitting, FramesFrom, ChunksFrom;
    AddressedAreFirst(recipients);
    FramesCarryChunks(Addressed(recipients), payload, 0);
    var i :| 0 <= i < |Frames(recipients, payload)| && Frames(recipients, payload)[i] == f;
    FrameRefused(from, Addressed(recipients), Chunks(payload)[i]);
  }
}
