/** The byte-offset view of an in-memory message, and the in-place recipient wipe. */
module Message {
  import opened Wrappers
  import opened Wire

  function FromId(m: seq<byte>): (id: Id) {
    if |m| >= 32 then m[..32] else Zeros(32)
  }

  function ToIdsLen(m: seq<byte>): (n: nat)
    ensures n < 256
  {
    if |m| > 32 then m[32] else 0
  }

  function ToIdAt(m: seq<byte>, i: int): (id: Id) {
    if 0 <= i < ToIdsLen(m) && |m| >= 33 + 32 * i + 32 then m[33 + 32 * i..33 + 32 * i + 32] else Zeros(32)
  }

  /** None stands for Go's nil slice: the message is too short for what it announces. */
  function Payload(m: seq<byte>): Option<seq<byte>> {
    var offset := 33 + 32 * ToIdsLen(m);
    if |m| < offset + 4 then None else
    var start := offset + 4;
    var dataLen := Uint32(m[offset..offset + 4]);
    if |m| < start + dataLen then None else Some(m[start..start + dataLen])
  }

  /** What ZeroToIDs leaves behind. */
  function Zeroed(m: seq<byte>): (z: seq<byte>)
    ensures |z| == |m|
  {
    var end := 33 + 32 * ToIdsLen(m);
    if |m| >= end then m[..33] + Zeros(end - 33) + m[end..] else m
  }

  method ZeroToIDs(m: array<byte>)
    modifies m
    ensures m[..] == Zeroed(old(m[..]))
  {
    var n: nat := if m.Length > 32 then m[32] else 0;
    if n == 0 {
      return;
    }
    var start := 33;
    var end := 33 + n * 32;
    if m.Length >= end {
      forall k | start <= k < end {
        m[k] := 0;
      }
    }
  }

  /** The wipe hides the recipients and nothing else: sender, recipient count and payload read as before. */
  lemma ZeroedKeepsTheRest(m: seq<byte>)
    ensures FromId(Zeroed(m)) == FromId(m)
    ensures ToIdsLen(Zeroed(m)) == ToIdsLen(m)
    ensures Payload(Zeroed(m)) == Payload(m)
    ensures |m| >= 33 + 32 * ToIdsLen(m) ==> forall i: int :: ToIdAt(Zeroed(m), i) == Zeros(32)
    ensures Zeroed(Zeroed(m)) == Zeroed(m)
  {
    var end := 33 + 32 * ToIdsLen(m);
    var z := Zeroed(m);
    if |m| >= end {
      assert z[..32] == m[..32];
      assert z[end..] == m[end..];
      if |m| >= end + 4 {
        assert z[end..end + 4] == m[end..end + 4];
        var dataLen := Uint32(m[end..end + 4]);
        if |m| >= end + 4 + dataLen {
          assert z[end + 4..end + 4 + dataLen] == z[end..][4..4 + dataLen];
          assert m[end + 4..end + 4 + dataLen] == m[end..][4..4 + dataLen];
        }
      }
    }
  }

  /** The payload is p exactly if p's length and then p follow the recipients; a message for which
      that holds of no p has none. */
  lemma PayloadIff(m: seq<byte>, p: seq<byte>)
    ensures var offset := 33 + 32 * ToIdsLen(m);
      Payload(m) == Some(p) <==>
        && |p| < UINT32_LIMIT && |m| >= offset + 4 + |p|
        && m[offset..offset + 4] == PutUint32(|p|) && m[offset + 4..offset + 4 + |p|] == p
  {
    hide Uint32, PutUint32;
    var offset := 33 + 32 * ToIdsLen(m);
    if |m| >= offset + 4 {
      PutUint32Of(m[offset..offset + 4]);
    }
    if |p| < UINT32_LIMIT {
      Uint32Put(|p|);
    }
  }

  /** What a message does not have reads as zero, and a recipient list that is cut off is not wiped. */
  lemma MissingReadsAsZero(m: seq<byte>, i: int)
    ensures |m| < 32 ==> FromId(m) == Zeros(32)
    ensures |m| <= 32 ==> ToIdsLen(m) == 0
    ensures !(0 <= i < ToIdsLen(m)) || |m| < 65 + 32 * i ==> ToIdAt(m, i) == Zeros(32)
    ensures |m| < 33 + 32 * ToIdsLen(m) ==> Zeroed(m) == m
  {
  }

  /** The server-side layout of an accepted frame reads back field by field. */
  lemma StampedFields(from: Id, ids: seq<Id>, data: seq<byte>)
    requires |ids| < 256 && |data| < UINT32_LIMIT
    ensures FromId(from + Frame(ids, data)) == from
    ensures ToIdsLen(from + Frame(ids, data)) == |ids|
    ensures forall i :: 0 <= i < |ids| ==> ToIdAt(from + Frame(ids, data), i) == ids[i]
    ensures Payload(from + Frame(ids, data)) == Some(data)
  {
    hide Payload, Flatten, PutUint32;
    var m := from + Frame(ids, data);
    assert m[..32] == from && m[32] == |ids|;
    forall i | 0 <= i < |ids| ensures ToIdAt(m, i) == ids[i] {
      FlattenAt(ids, i);
      assert m[33 + 32 * i..33 + 32 * i + 32] == Flatten(ids)[32 * i..32 * i + 32];
    }
    StampedPayload(from, ids, data);
  }

  lemma StampedPayload(from: Id, ids: seq<Id>, data: seq<byte>)
    requires |ids| < 256 && |data| < UINT32_LIMIT
    ensures Payload(from + Frame(ids, data)) == Some(data)
  {
    hide Uint32, PutUint32, Flatten;
    var m := from + Frame(ids, data);
    assert m[32] == |ids|;
    var offset := 33 + 32 * |ids|;
    Uint32Put(|data|);
    assert m[offset..offset + 4] == PutUint32(|data|);
    assert m[offset + 4..offset + 4 + |data|] == data;
  }

  /** Wiping an accepted frame yields exactly the frame the protocol promises to recipients. */
  lemma ZeroedIsDelivered(from: Id, ids: seq<Id>, data: seq<byte>)
    requires |ids| < 256 && |data| < UINT32_LIMIT
    ensures Zeroed(from + Frame(ids, data)) == Delivered(from, |ids|, data)
  {
    hide Flatten, PutUint32, Payload, ToIdAt, FromId;
    var m := from + Frame(ids, data);
    StampedFields(from, ids, data);
    var end := 33 + 32 * |ids|;
    assert m[..33] == from + [|ids|];
    assert m[end..] == PutUint32(|data|) + data;
  }

  lemma DeliveredFields(from: Id, n: nat, data: seq<byte>)
    requires n < 256 && |data| < UINT32_LIMIT
    ensures FromId(Delivered(from, n, data)) == from
    ensures ToIdsLen(Delivered(from, n, data)) == n
    ensures Payload(Delivered(from, n, data)) == Some(data)
  {
    var m := Delivered(from, n, data);
    assert m[..32] == from;
    Uint32Put(|data|);
    var offset := 33 + 32 * n;
    assert m[offset..offset + 4] == PutUint32(|data|);
    assert m[offset + 4..offset + 4 + |data|] == data;
  }
}
