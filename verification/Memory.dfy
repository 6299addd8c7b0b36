/** Reference-counted byte buffers. */
module Memory {
  import opened Wire

  /** The count is what Go keeps in an atomic.Int32; a nil data slice is null here. */
  class Buffer {
    var data: array?<byte>
    var refs: int

    function Bytes(): (s: seq<byte>)
      reads this, if data == null then {} else {data}
    {
      if data == null then [] else data[..]
    }

    /** n bytes of arbitrary content and one reference for the caller. */
    constructor (n: nat)
      ensures refs == 1
      ensures n == 0 ==> data == null
      ensures n > 0 ==> data != null && fresh(data) && data.Length == n
    {
      refs := 1;
      if n == 0 {
        data := null;
      } else {
        data := new byte[n];
      }
    }

    /** Unlike what its Go comment announces, there is no check for a count of zero. */
    method Retain()
      modifies `refs
      ensures refs == old(refs) + 1
    {
      refs := refs + 1;
    }

    /** Frees the bytes when the last reference goes; reports the double-free panic. */
    method Release() returns (panicked: bool)
      modifies this
      ensures refs == old(refs) - 1
      ensures panicked <==> refs < 0
      ensures data == if refs == 0 then null else old(data)
    {
      refs := refs - 1;
      if refs < 0 {
        return true;
      }
      if refs == 0 {
        data := null;
      }
      return false;
    }
  }
}
