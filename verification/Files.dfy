/** An open file: its bytes and the current offset, with complete transfers. */
module Files {

  newtype byte = x: int | 0 <= x < 256

  function Min(a: nat, b: nat): nat { if a < b then a else b }

  /** What a write of `bytes` at `offset` makes of a file's contents; a gap reads as zeros. */
  function Overlay(data: seq<byte>, offset: nat, bytes: seq<byte>): seq<byte>
  {
    if bytes == [] then data
    else if offset > |data| then data + seq(offset - |data|, _ => 0) + bytes
    else data[..offset] + bytes + data[Min(offset + |bytes|, |data|)..]
  }

  /** A write at the end appends. */
  lemma OverlayAppends(data: seq<byte>, bytes: seq<byte>)
    ensures Overlay(data, |data|, bytes) == data + bytes
  {
    if bytes == [] {
      assert data + bytes == data;
    } else {
      assert data[..|data|] == data && data[|data|..] == [];
    }
  }

  class File {
    var data: seq<byte>
    var offset: nat

    constructor (data: seq<byte>)
      ensures this.data == data && offset == 0
    {
      this.data, offset := data, 0;
    }

    /** The bytes a read of at most `count` delivers: short only at the end of the file. */
    function Upcoming(count: nat): seq<byte>
      reads this
    {
      if offset >= |data| then [] else data[offset..Min(offset + count, |data|)]
    }

    method Read(buffer: array<byte>) returns (n: nat)
      modifies this`offset, buffer
      ensures n == |old(Upcoming(buffer.Length))| <= buffer.Length && offset == old(offset) + n
      ensures buffer[..] == old(Upcoming(buffer.Length)) + old(buffer[n..])
    {
      var bytes := Upcoming(buffer.Length);
      n := |bytes|;
      forall i | 0 <= i < n {
        buffer[i] := bytes[i];
      }
      offset := offset + n;
    }

    method Write(bytes: seq<byte>)
      modifies this
      ensures data == Overlay(old(data), old(offset), bytes) && offset == old(offset) + |bytes|
    {
      data := Overlay(data, offset, bytes);
      offset := offset + |bytes|;
    }

    method Rewind()
      modifies this`offset
      ensures offset == 0
    {
      offset := 0;
    }
  }
}
