/** Reading one frame from an io.Reader that hands out its bytes in pieces of its own choosing. */
module Parser {
  import opened Wrappers
  import opened Wire
  import opened Targets
  import opened Memory
  import opened Codec

  /** One answer of the reader: nothing at all, or up to most + 1 bytes; an eager answer
      reports the end together with the last bytes. */
  datatype Answer = Stall | Give(most: nat, eager: bool)

  /** An io.Reader over a fixed stream. Its answers follow a script of any finite length,
      after which it gives whatever is asked for. */
  class Reader {
    const end: End
    var rest: seq<byte>
    var script: seq<Answer>
    /** Whether the latest Read returned neither bytes nor an error. */
    var stalled: bool

    constructor (stream: seq<byte>, end: End, script: seq<Answer>)
      ensures rest == stream && this.end == end && this.script == script
    {
      rest, this.end, this.script, stalled := stream, end, script, false;
    }

    ghost predicate NeverStalls()
      reads this
    {
      Stall !in script
    }

    method Read(want: nat) returns (chunk: seq<byte>, err: Option<End>)
      requires want > 0
      modifies this
      ensures |chunk| <= want && chunk + rest == old(rest)
      ensures err == None || (err == Some(end) && rest == [])
      ensures stalled <==> chunk == [] && err == None
      ensures !stalled && chunk == [] ==> old(rest) == []
      ensures |script| <= |old(script)| && (stalled ==> |script| < |old(script)|)
      ensures old(NeverStalls()) ==> NeverStalls() && !stalled
    {
      var act := Give(want, false);
      if script != [] {
        act, script := script[0], script[1..];
      }
      stalled := act.Stall?;
      if act.Stall? {
        return [], None;
      }
      if rest == [] {
        return [], Some(end);
      }
      var n := if act.most + 1 < want then act.most + 1 else want;
      n := if n < |rest| then n else |rest|;
      chunk, rest := rest[..n], rest[n..];
      err := if rest == [] && act.eager then Some(end) else None;
    }
  }

  /** io.ReadFull into buf[lo..hi]. */
  method ReadFull(r: Reader, buf: array<byte>, lo: nat, hi: nat) returns (err: Option<Error>)
    requires lo <= hi <= buf.Length
    modifies r, buf
    ensures old(r.NeverStalls()) ==> r.NeverStalls()
    ensures buf[..lo] == old(buf[..lo]) && buf[hi..] == old(buf[hi..])
    ensures |old(r.rest)| < hi - lo ==> err == Some(ShortRead(|old(r.rest)|, r.end))
    ensures |old(r.rest)| >= hi - lo ==>
      err == None && buf[lo..hi] == old(r.rest)[..hi - lo] && r.rest == old(r.rest)[hi - lo..]
  {
    ghost var stream := r.rest;
    var n := 0;
    var e: Option<End> := None;
    while n < hi - lo && e == None
      invariant 0 <= n <= hi - lo && n <= |stream|
      invariant r.rest == stream[n..]
      invariant old(r.NeverStalls()) ==> r.NeverStalls()
      invariant e == None || (e == Some(r.end) && n == |stream|)
      invariant buf[..lo] == old(buf[..lo]) && buf[hi..] == old(buf[hi..])
      invariant buf[lo..lo + n] == stream[..n]
      decreases |r.script| + hi - lo - n, e == None
    {
      var chunk;
      chunk, e := r.Read(hi - lo - n);
      forall k | 0 <= k < |chunk| {
        buf[lo + n + k] := chunk[k];
      }
      assert buf[lo..lo + n + |chunk|] == stream[..n] + chunk;
      assert stream[..n] + chunk == stream[..n + |chunk|] by {
        assert stream[n..][..|chunk|] == chunk;
      }
      n := n + |chunk|;
    }
    if n >= hi - lo {
      return None;
    }
    match e.value {
      case Fault(code) => return Some(ReadFault(code));
      case Eof => return Some(if n > 0 then UnexpectedEof else ReadEof);
    }
  }

  /** io.Copy(io.Discard, r), its result ignored. */
  method Drain(r: Reader)
    modifies r
    ensures r.rest == []
  {
    var e: Option<End> := None;
    while e == None
      invariant e != None ==> r.rest == []
      decreases |r.script| + |r.rest|, e == None
    {
      var chunk;
      chunk, e := r.Read(32 * 1024);
    }
  }

  datatype Outcome = Ok(buf: Buffer) | Err(error: Error)

  /** What the parser must answer: the grammar's verdict, except that a reader returning
      neither bytes nor an error when probed for the end gets an invalid-message error. */
  function Verdict(from: Id, stream: seq<byte>, end: End, maxDataLen: nat, stalled: bool): (r: Result) {
    if stalled && ReachesProbe(stream, end, maxDataLen) then Rejected(Invalid)
    else Parse(from, stream, end, maxDataLen)
  }

  /** Step 2: ToIDs and DataLen go into a stack array and are looked at there. */
  method ReadTail(r: Reader, nTo: nat, maxDataLen: nat, ghost stream: seq<byte>) returns (h: Header, fixed: seq<byte>)
    requires 1 <= nTo <= MAX_TARGETS && |stream| >= 1 && Count(stream) == nTo && r.rest == stream[1..]
    modifies r
    ensures old(r.NeverStalls()) && h.HeaderOk? ==> r.NeverStalls()
    ensures h == ParseHeader(stream, r.end, maxDataLen) && h != HeaderBad(Skip)
    ensures h.HeaderOk? ==> fixed == stream[1..HeaderLen(nTo)] && r.rest == stream[HeaderLen(nTo)..]
  {
    hide Distinct, IdsOf, Uint32;
    var toIDsLen := nTo * 32;
    var tail := new byte[MAX_TARGETS * 32 + 4](_ => 0);
    var tailN := toIDsLen + 4;
    var err := ReadFull(r, tail, 0, tailN);
    if err != None {
      return HeaderBad(err.value), [];
    }
    fixed := tail[0..tailN];
    HeaderPieces(stream, nTo, fixed);

    var dup := HasDuplicateTarget(fixed[..toIDsLen], nTo);
    if dup {
      return HeaderBad(Invalid), [];
    }
    var dataLen := Uint32(fixed[toIDsLen..toIDsLen + 4]);
    if dataLen > maxDataLen {
      return HeaderBad(TooLarge), [];
    }
    return HeaderOk(nTo, dataLen), fixed;
  }

  /** Steps 1 and 2: the fixed part, up to the point where the buffer's size is known. */
  method ReadHeader(r: Reader, maxDataLen: nat) returns (h: Header, head: seq<byte>)
    modifies r
    ensures old(r.NeverStalls()) && h.HeaderOk? ==> r.NeverStalls()
    ensures h == ParseHeader(old(r.rest), r.end, maxDataLen)
    ensures h.HeaderOk? ==> head == old(r.rest)[..HeaderLen(h.n)] && r.rest == old(r.rest)[HeaderLen(h.n)..]
    ensures h == HeaderBad(Skip) ==> r.rest == []
  {
    hide Distinct, IdsOf, DataLen;
    ghost var stream := r.rest;
    var nToByte := new byte[1];
    var err := ReadFull(r, nToByte, 0, 1);
    if err != None {
      return HeaderBad(err.value), [];
    }
    assert nToByte[0] == nToByte[0..1][0] == stream[0];
    var nTo: nat := nToByte[0];
    if nTo == 0 {
      Drain(r);
      return HeaderBad(Skip), [];
    }
    if nTo > MAX_TARGETS {
      return HeaderBad(Invalid), [];
    }
    var fixed;
    h, fixed := ReadTail(r, nTo, maxDataLen, stream);
    head := [nTo] + fixed;
  }

  /** Step 3: Data goes straight into the buffer, and then the stream must be at its end. */
  method ReadBody(r: Reader, data: array<byte>, prefixLen: nat) returns (err: Option<Error>)
    requires prefixLen <= data.Length
    modifies r, data
    ensures data[..prefixLen] == old(data[..prefixLen])
    ensures old(r.NeverStalls()) && |old(r.rest)| >= data.Length - prefixLen ==> !r.stalled
    ensures err == BodyVerdict(old(r.rest), r.end, data.Length - prefixLen, r.stalled)
    ensures err == None ==> data[prefixLen..] == old(r.rest)
  {
    if data.Length > prefixLen {
      err := ReadFull(r, data, prefixLen, data.Length);
      if err != None {
        return;
      }
    }
    var probe, e := r.Read(1);
    if |probe| > 0 {
      return Some(Invalid);
    }
    if e != Some(Eof) {
      return Some(if e == None then Invalid else ReadFault(e.value.code));
    }
    return None;
  }

  function BodyVerdict(body: seq<byte>, end: End, dataLen: nat, stalled: bool): Option<Error> {
    if |body| < dataLen then Some(ShortRead(|body|, end)) else
    if |body| > dataLen || stalled then Some(Invalid) else
    if end.Fault? then Some(ReadFault(end.code)) else None
  }

  /** The identity and the fixed part in front of the data. */
  method Stamp(data: array<byte>, fromID: Id, head: seq<byte>)
    requires data.Length >= 32 + |head|
    modifies data
    ensures data[..32 + |head|] == fromID + head
  {
    forall k | 0 <= k < 32 {
      data[k] := fromID[k];
    }
    forall k | 0 <= k < |head| {
      data[32 + k] := head[k];
    }
  }

  /** The ghost results name the buffer the call allocated, if it did, and its size. */
  method ReadMessageWithFixedFromID(r: Reader, maxDataLen: nat, fromID: Id)
    returns (out: Outcome, ghost alloc: Buffer?, ghost size: nat)
    modifies r
    ensures var v := Verdict(fromID, old(r.rest), r.end, maxDataLen, r.stalled);
      match out
      case Err(e) => v == Rejected(e) && (alloc != null ==> alloc.refs == 0 && alloc.data == null)
      case Ok(buf) => alloc == buf && buf.refs == 1 && v == Accepted(buf.Bytes())
    ensures var h := ParseHeader(old(r.rest), r.end, maxDataLen);
      (alloc != null <==> h.HeaderOk?) && (h.HeaderOk? ==> fresh(alloc) && size == TotalLen(h))
    ensures old(r.NeverStalls()) && ReachesProbe(old(r.rest), r.end, maxDataLen) ==> !r.stalled
    ensures out == Err(Skip) ==> r.rest == []
    ensures out.Ok? ==> out.buf.data != null && fresh(out.buf.data)
  {
    hide Distinct, IdsOf, Uint32;
    ghost var stream := r.rest;
    alloc, size := null, 0;
    var h, head := ReadHeader(r, maxDataLen);
    if h.HeaderBad? {
      return Err(h.error), null, 0;
    }
    var prefixLen := 32 + |head|;
    var totalLen := prefixLen + h.dataLen;
    var buf := new Buffer(totalLen);
    alloc, size := buf, totalLen;
    var data := buf.data;
    Stamp(data, fromID, head);

    var err := ReadBody(r, data, prefixLen);
    if err != None {
      var _ := buf.Release();
      return Err(err.value), buf, totalLen;
    }
    assert data[..] == data[..prefixLen] + data[prefixLen..];
    assert stream == stream[..HeaderLen(h.n)] + stream[HeaderLen(h.n)..];
    return Ok(buf), buf, totalLen;
  }

  /** The pieces of the fixed part, as they sit in the stream and in the stack copy of it. */
  lemma HeaderPieces(stream: seq<byte>, n: nat, fixed: seq<byte>)
    requires 1 <= n <= MAX_TARGETS && |stream| >= HeaderLen(n) && Count(stream) == n
    requires fixed == stream[1..][..32 * n + 4]
    ensures fixed == stream[1..HeaderLen(n)]
    ensures IdsOf(fixed[..32 * n], n) == IdsOf(stream[1..], n)
    ensures Uint32(fixed[32 * n..32 * n + 4]) == DataLen(stream)
    ensures [stream[0]] + fixed == stream[..HeaderLen(n)]
    ensures stream[1..][32 * n + 4..] == stream[HeaderLen(n)..]
  {
    hide Uint32, IdsOf;
    var rest := stream[1..];
    SliceOfSlice(rest, 0, 32 * n + 4, 0, 32 * n);
    IdsOfPrefix(rest, n);
    SliceOfSlice(rest, 0, 32 * n + 4, 32 * n, 32 * n + 4);
    SliceOfSlice(stream, 1, |stream|, 32 * n, 32 * n + 4);
    assert fixed[32 * n..32 * n + 4] == stream[HeaderLen(n) - 4..HeaderLen(n)];
  }

  lemma IdsOfPrefix(s: seq<byte>, n: nat)
    requires 32 * n <= |s|
    ensures IdsOf(s[..32 * n], n) == IdsOf(s, n)
  {
    forall i | 0 <= i < n ensures IdsOf(s[..32 * n], n)[i] == IdsOf(s, n)[i] {
      SliceOfSlice(s, 0, 32 * n, 32 * i, 32 * i + 32);
    }
  }

  /** How the bytes were split does not matter, except through a stalled probe: the verdict
      departs from the grammar's exactly when the probe stalls on a frame that was accepted
      or failed by a read fault at its very end. */
  lemma ChunkingMattersOnlyAtTheProbe(from: Id, stream: seq<byte>, end: End, maxDataLen: nat, stalled: bool)
    ensures Verdict(from, stream, end, maxDataLen, stalled) != Parse(from, stream, end, maxDataLen)
      <==> stalled && exists ids, data :: IsFrame(stream, ids, data, maxDataLen)
    ensures Verdict(from, stream, end, maxDataLen, stalled) == if stalled && InGrammar(stream, maxDataLen)
      then Rejected(Invalid) else Parse(from, stream, end, maxDataLen)
  {
    hide Uint32, IdsOf, PutUint32, Flatten;
    if ReachesProbe(stream, end, maxDataLen) {
      AcceptsExactlyTheGrammar(from, stream, Eof, maxDataLen);
    }
    if exists ids, data :: IsFrame(stream, ids, data, maxDataLen) {
      var ids, data :| IsFrame(stream, ids, data, maxDataLen);
      FrameHeader(ids, data, end, maxDataLen);
    }
  }
}
