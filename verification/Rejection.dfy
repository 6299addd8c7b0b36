/** Which streams the parser refuses, and with which error, in terms of the bytes alone. */
module Rejection {
  import opened Wire
  import opened Codec
  import opened Parser

  /** The fixed part of a frame for ids with n bytes of data. */
  ghost function Head(ids: seq<Id>, n: nat): (s: seq<byte>)
    requires |ids| < 256 && n < UINT32_LIMIT
    ensures |s| == 1 + 32 * |ids| + 4
  {
    [|ids|] + Flatten(ids) + PutUint32(n)
  }

  /** The stream begins with the whole fixed part for 1..10 recipients ids and n bytes of data. */
  ghost predicate Announces(stream: seq<byte>, ids: seq<Id>, n: nat) {
    1 <= |ids| <= MAX_TARGETS && n < UINT32_LIMIT && Head(ids, n) <= stream
  }

  /** The stream's fixed part is whole and within the rules. */
  ghost predicate Allowed(stream: seq<byte>, ids: seq<Id>, n: nat, maxDataLen: nat) {
    Announces(stream, ids, n) && Distinct(ids) && n <= maxDataLen
  }

  lemma Announced(stream: seq<byte>, ids: seq<Id>, n: nat)
    requires Announces(stream, ids, n)
    ensures |stream| >= HeaderLen(|ids|) && Count(stream) == |ids|
    ensures IdsOf(stream[1..], |ids|) == ids && DataLen(stream) == n
  {
    hide PutUint32, Uint32, Flatten, IdsOf;
    var head := Head(ids, n);
    var rest := PutUint32(n) + stream[|head|..];
    assert stream == head + stream[|head|..];
    assert stream[1..] == Flatten(ids) + rest;
    IdsOfFlatten(ids, rest);
    assert stream[HeaderLen(|ids|) - 4..HeaderLen(|ids|)] == PutUint32(n);
    Uint32Put(n);
  }

  /** A stream that is long enough for what its first byte says announces something. */
  lemma WholeHeader(stream: seq<byte>) returns (ids: seq<Id>, n: nat)
    requires stream != [] && 1 <= stream[0] <= MAX_TARGETS && |stream| >= 5 + 32 * stream[0] as nat
    ensures Announces(stream, ids, n) && |ids| == stream[0] && ids == IdsOf(stream[1..], |ids|) && n == DataLen(stream)
  {
    hide PutUint32, Uint32, Flatten, IdsOf;
    var k: nat := stream[0];
    ids, n := IdsOf(stream[1..], k), DataLen(stream);
    FlattenIdsOf(stream[1..], k);
    PutUint32Of(stream[HeaderLen(k) - 4..HeaderLen(k)]);
    assert stream[1..][..32 * k] == stream[1..1 + 32 * k];
    assert Head(ids, n) == [stream[0]] + stream[1..1 + 32 * k] + stream[HeaderLen(k) - 4..HeaderLen(k)]
      == stream[..HeaderLen(k)];
  }

  // --- What can be wrong with a stream ---

  /** The stream ends before a fixed part for 1..10 recipients is whole. */
  ghost predicate EndsInHead(stream: seq<byte>) {
    exists ids: seq<Id>, n: nat :: CutHead(stream, ids, n)
  }

  ghost predicate CutHead(stream: seq<byte>, ids: seq<Id>, n: nat) {
    1 <= |ids| <= MAX_TARGETS && n < UINT32_LIMIT && stream < Head(ids, n)
  }

  /** The fixed part is whole and within the rules, and fewer bytes follow than it announces. */
  ghost predicate EndsInData(stream: seq<byte>, maxDataLen: nat) {
    exists ids: seq<Id>, n: nat :: Allowed(stream, ids, n, maxDataLen) && |stream| < |Head(ids, n)| + n
  }

  ghost predicate NamesTwice(stream: seq<byte>) {
    exists ids: seq<Id>, n: nat :: Announces(stream, ids, n) && !Distinct(ids)
  }

  ghost predicate AnnouncesTooMuch(stream: seq<byte>, maxDataLen: nat) {
    exists ids: seq<Id>, n: nat :: Announces(stream, ids, n) && Distinct(ids) && n > maxDataLen
  }

  /** A frame of the grammar with something behind it. */
  ghost predicate HasTrailer(stream: seq<byte>, maxDataLen: nat) {
    exists k :: 0 <= k < |stream| && InGrammar(stream[..k], maxDataLen)
  }

  /** The stream ends where one of the parser's reads begins or ends. */
  predicate EndsBetweenReads(stream: seq<byte>) {
    |stream| <= 1 || |stream| == 5 + 32 * stream[0] as nat
  }

  /** The first byte promises 1..10 recipients. */
  predicate Counted(stream: seq<byte>) {
    stream != [] && 1 <= stream[0] <= MAX_TARGETS
  }

  lemma HeadCutIff(stream: seq<byte>)
    ensures EndsInHead(stream) <==> stream == [] || (Counted(stream) && |stream| < 5 + 32 * stream[0] as nat)
  {
    if EndsInHead(stream) {
      var ids, n :| CutHead(stream, ids, n);
      assert stream != [] ==> stream[0] == Head(ids, n)[0] == |ids|;
    }
    if stream == [] {
      assert CutHead(stream, [Zeros(32)], 0);
    } else if Counted(stream) && |stream| < 5 + 32 * stream[0] as nat {
      var whole := stream + Zeros(5 + 32 * stream[0] as nat - |stream|);
      var ids, n := WholeHeader(whole);
      assert Head(ids, n) == whole[..|Head(ids, n)|] == whole;
      assert CutHead(stream, ids, n);
    }
  }

  /** What a whole fixed part announces is what the parser reads from it. */
  lemma AnnouncesIff(stream: seq<byte>, ids: seq<Id>, n: nat)
    ensures Announces(stream, ids, n) <==>
      && Counted(stream) && |stream| >= 5 + 32 * stream[0] as nat
      && ids == IdsOf(stream[1..], Count(stream)) && n == DataLen(stream)
  {
    hide Head, IdsOf, DataLen;
    if Announces(stream, ids, n) {
      Announced(stream, ids, n);
    } else if Counted(stream) && |stream| >= 5 + 32 * stream[0] as nat {
      var ids', n' := WholeHeader(stream);
    }
  }

  /** The bytes' own account of the fixed part. */
  lemma HeadOutcomes(stream: seq<byte>, end: End, maxDataLen: nat)
    ensures var h := ParseHeader(stream, end, maxDataLen);
      && (h == HeaderBad(Skip) <==> stream != [] && stream[0] == 0)
      && (h == HeaderBad(TooLarge) <==> AnnouncesTooMuch(stream, maxDataLen))
      && (h == HeaderBad(Invalid) <==> (stream != [] && stream[0] > MAX_TARGETS) || NamesTwice(stream))
      && (h.HeaderBad? && h.error !in {Skip, TooLarge, Invalid} <==> EndsInHead(stream))
    ensures EndsInHead(stream) ==> ParseHeader(stream, end, maxDataLen) == HeaderBad(CutError(stream, end))
  {
    hide Announces, CutHead, IdsOf, DataLen, Uint32;
    HeadCutIff(stream);
    forall ids: seq<Id>, n: nat {
      AnnouncesIff(stream, ids, n);
    }
    if Counted(stream) && |stream| >= 5 + 32 * stream[0] as nat {
      assert Announces(stream, IdsOf(stream[1..], Count(stream)), DataLen(stream));
    }
  }

  /** The error of a stream that ends too early. */
  function CutError(stream: seq<byte>, end: End): Error {
    if end.Fault? then ReadFault(end.code) else if EndsBetweenReads(stream) then ReadEof else UnexpectedEof
  }

  /** A buffer is allocated if and only if the fixed part is whole and within the rules. */
  lemma HeaderPassesIff(stream: seq<byte>, end: End, maxDataLen: nat)
    ensures ParseHeader(stream, end, maxDataLen).HeaderOk? <==>
      exists ids: seq<Id>, n: nat :: Allowed(stream, ids, n, maxDataLen)
    ensures forall ids, n :: Allowed(stream, ids, n, maxDataLen) ==>
      ParseHeader(stream, end, maxDataLen) == HeaderOk(|ids|, n)
  {
    hide Announces, IdsOf, DataLen, Uint32;
    forall ids: seq<Id>, n: nat {
      AnnouncesIff(stream, ids, n);
    }
    if ParseHeader(stream, end, maxDataLen).HeaderOk? {
      assert Allowed(stream, IdsOf(stream[1..], Count(stream)), DataLen(stream), maxDataLen);
    }
  }

  /** Streams in the grammar are those whose fixed part passes and is followed by what it announces. */
  lemma InGrammarIff(stream: seq<byte>, end: End, maxDataLen: nat)
    ensures InGrammar(stream, maxDataLen) <==>
      var h := ParseHeader(stream, end, maxDataLen);
      h.HeaderOk? && |stream| == HeaderLen(h.n) + h.dataLen
  {
    hide ParseHeader;
    AcceptsExactlyTheGrammar(Zeros(32), stream, Eof, maxDataLen);
    HeaderIgnoresTheEnd(stream, end, maxDataLen);
  }

  lemma HeaderIgnoresTheEnd(stream: seq<byte>, end: End, maxDataLen: nat)
    ensures var (h, h') := (ParseHeader(stream, end, maxDataLen), ParseHeader(stream, Eof, maxDataLen));
      (h.HeaderOk? || h'.HeaderOk?) ==> h == h'
  {
  }

  /** The fixed part does not depend on what follows it. */
  lemma HeaderOfFront(stream: seq<byte>, k: nat, end: End, maxDataLen: nat)
    requires 1 <= k <= |stream| && HeaderLen(Count(stream)) <= k
    ensures ParseHeader(stream[..k], end, maxDataLen) == ParseHeader(stream, end, maxDataLen)
  {
    hide Uint32;
    var n := Count(stream);
    assert stream[..k][1..][..32 * n] == stream[1..][..32 * n];
    IdsOfPrefix(stream[..k][1..], n);
    IdsOfPrefix(stream[1..], n);
    assert stream[..k][HeaderLen(n) - 4..HeaderLen(n)] == stream[HeaderLen(n) - 4..HeaderLen(n)];
  }

  lemma HasTrailerIff(stream: seq<byte>, end: End, maxDataLen: nat)
    ensures HasTrailer(stream, maxDataLen) <==>
      var h := ParseHeader(stream, end, maxDataLen);
      h.HeaderOk? && |stream| > HeaderLen(h.n) + h.dataLen
  {
    hide ParseHeader, InGrammar;
    var h := ParseHeader(stream, end, maxDataLen);
    if HasTrailer(stream, maxDataLen) {
      var k :| 0 <= k < |stream| && InGrammar(stream[..k], maxDataLen);
      InGrammarIff(stream[..k], end, maxDataLen);
      HeaderOfFront(stream, k, end, maxDataLen);
    }
    if h.HeaderOk? && |stream| > HeaderLen(h.n) + h.dataLen {
      var k := HeaderLen(h.n) + h.dataLen;
      HeaderOfFront(stream, k, end, maxDataLen);
      InGrammarIff(stream[..k], end, maxDataLen);
    }
  }

  lemma EndsInDataIff(stream: seq<byte>, end: End, maxDataLen: nat)
    ensures EndsInData(stream, maxDataLen) <==>
      var h := ParseHeader(stream, end, maxDataLen);
      h.HeaderOk? && |stream| < HeaderLen(h.n) + h.dataLen
  {
    hide ParseHeader, Announces;
    HeaderPassesIff(stream, end, maxDataLen);
    if ParseHeader(stream, end, maxDataLen).HeaderOk? {
      var ids: seq<Id>, n: nat :| Allowed(stream, ids, n, maxDataLen);
      assert |Head(ids, n)| == HeaderLen(|ids|);
    }
  }

  // --- Which error it is ---

  /** Only a frame that counts no recipients is skipped. */
  lemma SkippedIff(from: Id, stream: seq<byte>, end: End, maxDataLen: nat)
    ensures Parse(from, stream, end, maxDataLen) == Rejected(Skip) <==> stream != [] && stream[0] == 0
  {
    hide ParseHeader;
    HeadOutcomes(stream, end, maxDataLen);
  }

  /** Too large is what announces more than the limit to 1..10 distinct recipients. */
  lemma TooLargeIff(from: Id, stream: seq<byte>, end: End, maxDataLen: nat)
    ensures Parse(from, stream, end, maxDataLen) == Rejected(TooLarge) <==> AnnouncesTooMuch(stream, maxDataLen)
  {
    hide ParseHeader, AnnouncesTooMuch;
    HeadOutcomes(stream, end, maxDataLen);
  }

  /** Invalid is what counts more than ten recipients, names one twice, or goes on behind a frame. */
  lemma InvalidIff(from: Id, stream: seq<byte>, end: End, maxDataLen: nat)
    ensures Parse(from, stream, end, maxDataLen) == Rejected(Invalid) <==>
      || (stream != [] && stream[0] > MAX_TARGETS)
      || NamesTwice(stream)
      || HasTrailer(stream, maxDataLen)
  {
    hide ParseHeader, NamesTwice, HasTrailer;
    HeadOutcomes(stream, end, maxDataLen);
    HasTrailerIff(stream, end, maxDataLen);
  }

  /** A stream that ends too early, in the fixed part or in the data. */
  ghost predicate IsCut(stream: seq<byte>, maxDataLen: nat) {
    EndsInHead(stream) || EndsInData(stream, maxDataLen)
  }

  /** A clean end too early is EOF between two reads and an unexpected EOF inside one; a fault is
      reported as it is, and also when it takes the place of the end behind a whole frame. */
  lemma CutIff(from: Id, stream: seq<byte>, end: End, maxDataLen: nat)
    ensures var r := Parse(from, stream, end, maxDataLen);
      && (r == Rejected(ReadEof) <==> end == Eof && IsCut(stream, maxDataLen) && EndsBetweenReads(stream))
      && (r == Rejected(UnexpectedEof) <==> end == Eof && IsCut(stream, maxDataLen) && !EndsBetweenReads(stream))
      && (forall code :: r == Rejected(ReadFault(code)) <==>
            end == Fault(code) && (IsCut(stream, maxDataLen) || InGrammar(stream, maxDataLen)))
  {
    hide EndsInHead, EndsInData, InGrammar, AnnouncesTooMuch, NamesTwice;
    HeadOutcomes(stream, end, maxDataLen);
    EndsInDataIff(stream, end, maxDataLen);
    InGrammarIff(stream, end, maxDataLen);
  }
}
