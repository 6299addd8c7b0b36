/** Bytes, identities and the frame layout shared by server and client. */
module Wire {

  type byte = x: int | 0 <= x < 256

  const ID_SIZE: nat := 32
  const MAX_TARGETS: nat := 10
  const MAX_MESSAGE_SIZE: nat := 512 * 1024
  const LATENCY_CAP: nat := 65536
  const UINT32_LIMIT: nat := 0x1_0000_0000

  /** The capacity of a connector's channel. */
  function EffectiveCap(outBufSize: int): (cap: nat)
    ensures cap > 0
    ensures outBufSize > 0 ==> cap == outBufSize
    ensures outBufSize <= 0 ==> cap == 256
  {
    if outBufSize <= 0 then 256 else outBufSize
  }

  /** A public key. It is also a connector's identity. */
  type Id = s: seq<byte> | |s| == 32 witness seq(32, _ => 0)

  function Zeros(n: nat): (s: seq<byte>)
    ensures |s| == n
    ensures forall k :: 0 <= k < n ==> s[k] == 0
  {
    seq(n, _ => 0)
  }

  predicate Distinct<T(==)>(s: seq<T>) {
    forall i, j :: 0 <= i < j < |s| ==> s[i] != s[j]
  }

  /** Big-endian 32-bit encoding of DataLen. */
  function PutUint32(v: nat): (s: seq<byte>)
    requires v < UINT32_LIMIT
    ensures |s| == 4
  {
    [v / 0x100_0000, v / 0x1_0000 % 256, v / 0x100 % 256, v % 256]
  }

  function Uint32(s: seq<byte>): (v: nat)
    requires |s| == 4
    ensures v < UINT32_LIMIT
  {
    s[0] as int * 0x100_0000 + s[1] as int * 0x1_0000 + s[2] as int * 0x100 + s[3] as int
  }

  lemma Uint32Put(v: nat)
    requires v < UINT32_LIMIT
    ensures Uint32(PutUint32(v)) == v
  {
    assert v / 0x100 == v / 0x1_0000 * 256 + v / 0x100 % 256;
    assert v / 0x1_0000 == v / 0x100_0000 * 256 + v / 0x1_0000 % 256;
  }

  /** s is smaller than t at the first place where they differ. */
  predicate Below(s: seq<byte>, t: seq<byte>)
    requires |s| == |t|
  {
    exists i :: 0 <= i < |s| && s[i] < t[i] && forall j :: 0 <= j < i ==> s[j] == t[j]
  }

  /** The most significant byte comes first: numbers are ordered as their encodings are read. */
  lemma BigEndian(s: seq<byte>, t: seq<byte>)
    requires |s| == |t| == 4
    ensures Uint32(s) < Uint32(t) <==> Below(s, t)
  {
    if s[0] != t[0] {
      assert s[0] < t[0] ==> Below(s, t);
    } else if s[1] != t[1] {
      assert s[1] < t[1] ==> Below(s, t);
    } else if s[2] != t[2] {
      assert s[2] < t[2] ==> Below(s, t);
    } else {
      assert s[3] < t[3] ==> Below(s, t);
    }
  }

  lemma PutUint32Of(s: seq<byte>)
    requires |s| == 4
    ensures PutUint32(Uint32(s)) == s
  {
    var v := Uint32(s);
    var a: int, b: int, c: int := s[0], s[1], s[2];
    assert v / 0x100 == a * 0x1_0000 + b * 0x100 + c;
    assert v / 0x1_0000 == a * 0x100 + b;
    assert v / 0x100_0000 == a;
    assert PutUint32(v)[0] == s[0] && PutUint32(v)[1] == s[1];
    assert PutUint32(v)[2] == s[2] && PutUint32(v)[3] == s[3];
  }

  /** The ToIDs region: the identities laid end to end. */
  function Flatten(ids: seq<Id>): (s: seq<byte>)
    ensures |s| == 32 * |ids|
  {
    if ids == [] then [] else Flatten(ids[..|ids| - 1]) + ids[|ids| - 1]
  }

  /** The first n identities of a ToIDs region. */
  function IdsOf(s: seq<byte>, n: nat): (ids: seq<Id>)
    requires 32 * n <= |s|
    ensures |ids| == n
  {
    seq(n, i requires 0 <= i < n => s[32 * i..32 * i + 32])
  }

  lemma IdsOfAt(s: seq<byte>, n: nat, i: nat)
    requires 32 * n <= |s| && i < n
    ensures IdsOf(s, n)[i] == s[32 * i..32 * i + 32]
  {
  }

  lemma {:induction false} FlattenAt(ids: seq<Id>, i: nat)
    requires i < |ids|
    ensures Flatten(ids)[32 * i..32 * i + 32] == ids[i]
  {
    var n := |ids| - 1;
    if i < n {
      FlattenAt(ids[..n], i);
      assert Flatten(ids)[32 * i..32 * i + 32] == Flatten(ids[..n])[32 * i..32 * i + 32];
    }
  }

  lemma SliceOfSlice(s: seq<byte>, a: nat, b: nat, c: nat, d: nat)
    requires a <= b <= |s| && c <= d <= b - a
    ensures s[a..b][c..d] == s[a + c..a + d]
  {
    forall k | 0 <= k < d - c ensures s[a..b][c..d][k] == s[a + c..a + d][k] {
      assert s[a..b][c..d][k] == s[a..b][c + k] == s[a + c + k];
    }
  }

  lemma SlicePrefix(s: seq<byte>, rest: seq<byte>, lo: nat, hi: nat)
    requires lo <= hi <= |s|
    ensures (s + rest)[lo..hi] == s[lo..hi]
  {
  }

  lemma IdsOfFlatten(ids: seq<Id>, rest: seq<byte>)
    ensures IdsOf(Flatten(ids) + rest, |ids|) == ids
  {
    hide Flatten, IdsOf;
    var region := Flatten(ids) + rest;
    forall i | 0 <= i < |ids| ensures IdsOf(region, |ids|)[i] == ids[i] {
      IdsOfAt(region, |ids|, i);
      FlattenAt(ids, i);
      SlicePrefix(Flatten(ids), rest, 32 * i, 32 * i + 32);
    }
  }

  lemma {:induction false} FlattenIdsOf(s: seq<byte>, n: nat)
    requires 32 * n <= |s|
    ensures Flatten(IdsOf(s, n)) == s[..32 * n]
  {
    if n > 0 {
      FlattenIdsOf(s, n - 1);
      assert IdsOf(s, n)[..n - 1] == IdsOf(s, n - 1);
      assert s[..32 * n] == s[..32 * (n - 1)] + s[32 * (n - 1)..32 * n];
    }
  }

  /** Client to server: ToIDsLen, ToIDs, DataLen, Data. */
  function Frame(ids: seq<Id>, data: seq<byte>): (s: seq<byte>)
    requires |ids| < 256 && |data| < UINT32_LIMIT
    ensures |s| == 1 + 32 * |ids| + 4 + |data|
  {
    [|ids|] + Flatten(ids) + PutUint32(|data|) + data
  }

  /** Server to client: FromID, ToIDsLen, ToIDs blanked out, DataLen, Data. */
  function Delivered(from: Id, n: nat, data: seq<byte>): (s: seq<byte>)
    requires n < 256 && |data| < UINT32_LIMIT
    ensures |s| == 32 + 1 + 32 * n + 4 + |data|
  {
    from + [n] + Zeros(32 * n) + PutUint32(|data|) + data
  }
}
