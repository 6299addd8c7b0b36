/** The server's grammar for inbound frames, as a function of the whole stream. */
module Codec {
  import opened Wire

  /** What a reader reports once its bytes are used up. */
  datatype End = Eof | Fault(code: int)

  datatype Error = Skip | Invalid | TooLarge | ReadEof | UnexpectedEof | ReadFault(code: int)

  datatype Result = Accepted(bytes: seq<byte>) | Rejected(error: Error)

  /** io.ReadFull's error when the stream ends with got bytes of the wanted ones. */
  function ShortRead(got: nat, end: End): Error {
    match end
    case Fault(code) => ReadFault(code)
    case Eof => if got == 0 then ReadEof else UnexpectedEof
  }

  /** Bytes of the fixed part: ToIDsLen, ToIDs and DataLen. */
  function HeaderLen(n: nat): nat { 1 + 32 * n + 4 }

  function Count(stream: seq<byte>): (n: nat)
    requires |stream| >= 1
  {
    stream[0]
  }

  function DataLen(stream: seq<byte>): (n: nat)
    requires |stream| >= 1 && |stream| >= HeaderLen(Count(stream))
    ensures n < UINT32_LIMIT
  {
    Uint32(stream[HeaderLen(Count(stream)) - 4..HeaderLen(Count(stream))])
  }

  datatype Header = HeaderOk(n: nat, dataLen: nat) | HeaderBad(error: Error)

  /** Everything that is decided before a buffer is allocated. */
  function ParseHeader(stream: seq<byte>, end: End, maxDataLen: nat): (h: Header)
    ensures h.HeaderOk? ==> 1 <= h.n <= MAX_TARGETS && |stream| >= HeaderLen(h.n) && Count(stream) == h.n
    ensures h.HeaderOk? ==> h.dataLen == DataLen(stream) <= maxDataLen
    ensures h.HeaderOk? ==> Distinct(IdsOf(stream[1..], h.n))
  {
    if |stream| < 1 then HeaderBad(ShortRead(0, end)) else
    var n := Count(stream);
    if n == 0 then HeaderBad(Skip) else
    if n > MAX_TARGETS then HeaderBad(Invalid) else
    if |stream| < HeaderLen(n) then HeaderBad(ShortRead(|stream| - 1, end)) else
    if !Distinct(IdsOf(stream[1..], n)) then HeaderBad(Invalid) else
    if DataLen(stream) > maxDataLen then HeaderBad(TooLarge) else
    HeaderOk(n, DataLen(stream))
  }

  /** The size of the one buffer the parser allocates once the header has passed. */
  function TotalLen(h: Header): nat
    requires h.HeaderOk?
  {
    32 + HeaderLen(h.n) + h.dataLen
  }

  /** True iff parsing gets as far as probing for the end of the stream. */
  predicate ReachesProbe(stream: seq<byte>, end: End, maxDataLen: nat) {
    var h := ParseHeader(stream, end, maxDataLen);
    h.HeaderOk? && |stream| >= HeaderLen(h.n) + h.dataLen
  }

  function Parse(from: Id, stream: seq<byte>, end: End, maxDataLen: nat): (r: Result) {
    var h := ParseHeader(stream, end, maxDataLen);
    if h.HeaderBad? then Rejected(h.error) else
    var body := |stream| - HeaderLen(h.n);
    if body < h.dataLen then Rejected(ShortRead(body, end)) else
    if body > h.dataLen then Rejected(Invalid) else
    if end.Fault? then Rejected(ReadFault(end.code)) else
    Accepted(from + stream)
  }

  /** A stream in the grammar: one frame with 1..10 distinct recipients and Data within the limit. */
  ghost predicate IsFrame(stream: seq<byte>, ids: seq<Id>, data: seq<byte>, maxDataLen: nat) {
    && 1 <= |ids| <= MAX_TARGETS
    && Distinct(ids)
    && |data| <= maxDataLen
    && |data| < UINT32_LIMIT
    && stream == Frame(ids, data)
  }

  ghost predicate InGrammar(stream: seq<byte>, maxDataLen: nat) {
    exists ids, data :: IsFrame(stream, ids, data, maxDataLen)
  }

  lemma FrameHeader(ids: seq<Id>, data: seq<byte>, end: End, maxDataLen: nat)
    requires 1 <= |ids| <= MAX_TARGETS && Distinct(ids) && |data| <= maxDataLen && |data| < UINT32_LIMIT
    ensures ParseHeader(Frame(ids, data), end, maxDataLen) == HeaderOk(|ids|, |data|)
  {
    var stream := Frame(ids, data);
    assert stream[1..] == Flatten(ids) + (PutUint32(|data|) + data);
    IdsOfFlatten(ids, PutUint32(|data|) + data);
    assert stream[HeaderLen(|ids|) - 4..HeaderLen(|ids|)] == PutUint32(|data|);
    Uint32Put(|data|);
  }

  lemma AcceptedIsFrame(from: Id, stream: seq<byte>, end: End, maxDataLen: nat) returns (ids: seq<Id>, data: seq<byte>)
    requires Parse(from, stream, end, maxDataLen).Accepted?
    ensures IsFrame(stream, ids, data, maxDataLen) && end == Eof
  {
    var n := Count(stream);
    ids := IdsOf(stream[1..], n);
    data := stream[HeaderLen(n)..];
    FlattenIdsOf(stream[1..], n);
    PutUint32Of(stream[HeaderLen(n) - 4..HeaderLen(n)]);
    assert stream[1..][..32 * n] == stream[1..1 + 32 * n];
    assert stream == [stream[0]] + stream[1..1 + 32 * n]
      + stream[HeaderLen(n) - 4..HeaderLen(n)] + stream[HeaderLen(n)..];
  }

  /** The parser accepts exactly the grammar, and an accepted frame is stamped, not altered. */
  lemma AcceptsExactlyTheGrammar(from: Id, stream: seq<byte>, end: End, maxDataLen: nat)
    ensures Parse(from, stream, end, maxDataLen).Accepted? <==> InGrammar(stream, maxDataLen) && end == Eof
    ensures var r := Parse(from, stream, end, maxDataLen); r.Accepted? ==> r.bytes == from + stream
  {
    if Parse(from, stream, end, maxDataLen).Accepted? {
      var ids, data := AcceptedIsFrame(from, stream, end, maxDataLen);
    }
    if InGrammar(stream, maxDataLen) {
      var ids, data :| IsFrame(stream, ids, data, maxDataLen);
      FrameHeader(ids, data, end, maxDataLen);
    }
  }

  /** No two frames share an encoding. */
  lemma FrameInjective(ids: seq<Id>, data: seq<byte>, ids': seq<Id>, data': seq<byte>)
    requires |ids| < 256 && |ids'| < 256 && |data| < UINT32_LIMIT && |data'| < UINT32_LIMIT
    requires Frame(ids, data) == Frame(ids', data')
    ensures ids == ids' && data == data'
  {
    var s, s' := Frame(ids, data), Frame(ids', data');
    assert s[0] == |ids| && s'[0] == |ids'|;
    var rest, rest' := PutUint32(|data|) + data, PutUint32(|data'|) + data';
    assert s[1..] == Flatten(ids) + rest && s'[1..] == Flatten(ids') + rest';
    IdsOfFlatten(ids, rest);
    IdsOfFlatten(ids', rest');
    assert s[HeaderLen(|ids|)..] == data && s'[HeaderLen(|ids'|)..] == data';
  }
}
