/** Choosing recipients: duplicate detection on the wire bytes and extraction from a message. */
module Targets {
  import opened Wire
  import opened Message
  import opened Sequences
  import opened Folds

  /** Reports whether two of the n identities at the front of toIDs are equal. */
  method HasDuplicateTarget(toIDs: seq<byte>, n: nat) returns (dup: bool)
    requires 32 * n <= |toIDs|
    ensures dup <==> !Distinct(IdsOf(toIDs, n))
  {
    ghost var ids := IdsOf(toIDs, n);
    var i, off := 0, 0;
    while i < n - 1
      invariant 0 <= i && (n > 0 ==> i <= n - 1) && (n == 0 ==> i == 0) && off == 32 * i
      invariant forall p, q :: 0 <= p < i && p < q < n ==> ids[p] != ids[q]
    {
      var a := toIDs[off..off + 32];
      var j, off2 := i + 1, off + 32;
      while j < n
        invariant i < j <= n && off2 == 32 * j
        invariant forall q :: i < q < j ==> ids[i] != ids[q]
      {
        assert ids[i] == a && ids[j] == toIDs[off2..off2 + 32];
        if a == toIDs[off2..off2 + 32] {
          return true;
        }
        j, off2 := j + 1, off2 + 32;
      }
      i, off := i + 1, off + 32;
    }
    return false;
  }

  /** The identities a message names, as far as ExtractTargets looks. */
  function Named(m: seq<byte>): (ids: seq<Id>)
    ensures |ids| <= MAX_TARGETS
  {
    var n := if ToIdsLen(m) > MAX_TARGETS then MAX_TARGETS else ToIdsLen(m);
    seq(n, i requires 0 <= i < n => ToIdAt(m, i))
  }

  /** The order-preserving filter that drops self. */
  function Without(ids: seq<Id>, self: Id): (r: seq<Id>)
    ensures |r| <= |ids|
  {
    if ids == [] then [] else
    var last := ids[|ids| - 1];
    var front := Without(ids[..|ids| - 1], self);
    if last == self then front else front + [last]
  }

  lemma WithoutNext(ids: seq<Id>, i: nat, self: Id)
    requires i < |ids|
    ensures Without(ids[..i + 1], self)
      == if ids[i] == self then Without(ids[..i], self) else Without(ids[..i], self) + [ids[i]]
  {
    assert ids[..i + 1][..i] == ids[..i];
  }

  /** The recipients of message m when self sent it. */
  function Recipients(m: seq<byte>, self: Id): (r: seq<Id>)
    ensures |r| <= MAX_TARGETS
  {
    Without(Named(m), self)
  }

  method ExtractTargets(msg: seq<byte>, self: Id, dst: array<Id>) returns (n: nat)
    requires dst.Length >= MAX_TARGETS
    modifies dst
    ensures n <= MAX_TARGETS
    ensures dst[..n] == Recipients(msg, self)
    ensures forall k :: n <= k < dst.Length ==> dst[k] == old(dst[k])
  {
    hide Named, Without, ToIdAt, ToIdsLen;
    var nTo := ToIdsLen(msg);
    if nTo > MAX_TARGETS {
      nTo := MAX_TARGETS;
    }
    ghost var ids, kept := Named(msg), [];
    NamedLength(msg);
    WithoutNothing(ids, self);
    n := 0;
    var i := 0;
    while i < nTo
      invariant 0 <= i <= nTo && n <= i && n == |kept|
      invariant kept == Without(ids[..i], self) && dst[..n] == kept
      invariant forall k :: n <= k < dst.Length ==> dst[k] == old(dst[k])
    {
      var id := ToIdAt(msg, i);
      NamedAt(msg, i);
      WithoutNext(ids, i, self);
      if id == self {
        i := i + 1;
        continue;
      }
      dst[n] := id;
      kept := kept + [id];
      n := n + 1;
      i := i + 1;
    }
    assert ids[..nTo] == ids;
  }

  lemma NamedLength(m: seq<byte>)
    ensures |Named(m)| == if ToIdsLen(m) > MAX_TARGETS then MAX_TARGETS else ToIdsLen(m)
  {
  }

  lemma WithoutNothing(ids: seq<Id>, self: Id)
    ensures Without(ids[..0], self) == []
  {
  }

  lemma NamedAt(m: seq<byte>, i: nat)
    requires i < |Named(m)|
    ensures Named(m)[i] == ToIdAt(m, i)
  {
  }

  lemma {:induction false} WithoutMembers(ids: seq<Id>, self: Id)
    ensures forall id :: id in Without(ids, self) <==> id in ids && id != self
  {
    if ids != [] {
      var front := ids[..|ids| - 1];
      WithoutMembers(front, self);
      assert ids == front + [ids[|ids| - 1]];
    }
  }

  lemma {:induction false} WithoutDistinct(ids: seq<Id>, self: Id)
    requires Distinct(ids)
    ensures Distinct(Without(ids, self))
  {
    if ids != [] {
      var front := ids[..|ids| - 1];
      WithoutDistinct(front, self);
      WithoutMembers(front, self);
      var last := ids[|ids| - 1];
      assert last !in front;
    }
  }

  /** The filter drops self and no occurrence of anybody else. */
  lemma {:induction false} WithoutCounts(ids: seq<Id>, self: Id, id: Id)
    ensures Occurrences(Without(ids, self), id) == if id == self then 0 else Occurrences(ids, id)
  {
    if ids != [] {
      var front, last := ids[..|ids| - 1], ids[|ids| - 1];
      WithoutCounts(front, self, id);
      OccurrencesAppend(Without(front, self), last, id);
    }
  }

  /** The filter keeps the order. */
  lemma {:induction false} WithoutKeepsOrder(ids: seq<Id>, self: Id)
    ensures IsSubsequence(Without(ids, self), ids)
  {
    if ids == [] {
      assert Embeds(Without(ids, self), ids, []);
    } else {
      var front, last := ids[..|ids| - 1], ids[|ids| - 1];
      WithoutKeepsOrder(front, self);
      var at :| Embeds(Without(front, self), front, at);
      EmbedsAppend(Without(front, self), front, at, last);
      assert ids == front + [last];
    }
  }

  /** For an accepted frame the extraction sees exactly the identities the sender listed. */
  lemma NamedOfFrame(from: Id, ids: seq<Id>, data: seq<byte>)
    requires |ids| <= MAX_TARGETS && |data| < UINT32_LIMIT
    ensures Named(from + Frame(ids, data)) == ids
  {
    StampedFields(from, ids, data);
  }

  /** Of a longer recipient list it would see the first ten. */
  lemma NamedOfLongFrame(from: Id, ids: seq<Id>, data: seq<byte>)
    requires MAX_TARGETS <= |ids| < 256 && |data| < UINT32_LIMIT
    ensures Named(from + Frame(ids, data)) == ids[..MAX_TARGETS]
  {
    hide Frame, ToIdAt, ToIdsLen;
    StampedFields(from, ids, data);
  }

  /** An accepted frame is routed to distinct recipients: those it lists, without its sender. */
  lemma RecipientsOfFrame(from: Id, ids: seq<Id>, data: seq<byte>)
    requires |ids| <= MAX_TARGETS && |data| < UINT32_LIMIT && Distinct(ids)
    ensures Distinct(Recipients(from + Frame(ids, data), from))
    ensures forall id :: id in Recipients(from + Frame(ids, data), from) <==> id in ids && id != from
  {
    NamedOfFrame(from, ids, data);
    WithoutMembers(ids, from);
    WithoutDistinct(ids, from);
  }
}
