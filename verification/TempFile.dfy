/** ch02/temp_file.c: a length-prefixed temporary file, written and read back through one descriptor. */
module TempFile {
  import opened Files

  /** The bytes of a `width`-byte integer in memory, least significant first. */
  function Encode(n: nat, width: nat): (bytes: seq<byte>)
    ensures |bytes| == width
  {
    if width == 0 then [] else [(n % 256) as byte] + Encode(n / 256, width - 1)
  }

  function Decode(bytes: seq<byte>): nat
  {
    if bytes == [] then 0 else bytes[0] as nat + 256 * Decode(bytes[1..])
  }

  function Power256(width: nat): nat { if width == 0 then 1 else 256 * Power256(width - 1) }

  /** Byte k holds the k-th eight bits. */
  lemma {:induction false} EncodeAt(n: nat, width: nat, k: nat)
    requires k < width
    ensures Power256(k) > 0 && Encode(n, width)[k] as int == n / Power256(k) % 256
  {
    if k > 0 {
      EncodeAt(n / 256, width - 1, k - 1);
      DivTwice(n, Power256(k - 1));
    }
  }

  lemma DivTwice(n: nat, p: nat)
    requires p > 0
    ensures n / 256 / p == n / (256 * p)
  {
    var m := n / 256;
    var r := 256 * (m % p) + n % 256;
    assert m == p * (m / p) + m % p;
    assert 256 * p * (m / p) == 256 * (p * (m / p));
    assert n == (256 * p) * (m / p) + r;
    assert 0 <= r < 256 * p;
    QuotientIs(n, 256 * p, m / p, r);
  }

  lemma QuotientIs(n: nat, d: nat, q: nat, r: nat)
    requires d > 0 && n == d * q + r && r < d
    ensures n / d == q
  {
    var k := n / d - q;
    assert n == d * (n / d) + n % d;
    assert d * k == d * (n / d) - d * q;
    NoSmallMultiple(d, k, r - n % d);
  }

  lemma NoSmallMultiple(d: int, k: int, r: int)
    requires d * k == r && -d < r < d
    ensures k == 0
  {}

  lemma {:induction false} DecodeEncode(n: nat, width: nat)
    requires n < Power256(width)
    ensures Decode(Encode(n, width)) == n
  {
    if width > 0 {
      DecodeEncode(n / 256, width - 1);
    }
  }

  lemma SizeTWidth()
    ensures Power256(8) == 0x1_0000_0000_0000_0000
  {
    assert Power256(4) == 0x1_0000_0000;
  }

  /** What read_temp_file can read: a size_t and at least as many bytes as it says. */
  predicate WellFormed(data: seq<byte>)
  {
    |data| >= 8 && Decode(data[..8]) <= |data| - 8
  }

  lemma PrefixReads(prefix: seq<byte>, rest: seq<byte>)
    ensures (prefix + rest)[..|prefix|] == prefix
  {}

  /** Lines 14-29 */
  method WriteTempFile(buffer: seq<byte>, length: nat) returns (file: File)
    requires length <= |buffer| && length < 0x1_0000_0000_0000_0000
    ensures fresh(file) && file.data == Encode(length, 8) + buffer[..length] && file.offset == 8 + length
    ensures WellFormed(file.data)
  {
    ghost var prefix := Encode(length, 8);
    file := new File([]);
    OverlayAppends([], prefix);
    file.Write(Encode(length, 8));
    assert [] + prefix == prefix;
    OverlayAppends(prefix, buffer[..length]);
    file.Write(buffer[..length]);
    PrefixReads(prefix, buffer[..length]);
    SizeTWidth();
    DecodeEncode(length, 8);
  }

  /** Lines 37-53; whatever the file's offset was. */
  method ReadTempFile(file: File) returns (buffer: array<byte>, length: nat)
    requires WellFormed(file.data)
    modifies file`offset
    ensures fresh(buffer) && length == Decode(file.data[..8]) == buffer.Length && buffer[..] == file.data[8..8 + length]
  {
    file.Rewind();
    var prefix := new byte[8];
    var n := file.Read(prefix);
    assert prefix[..] == file.data[..8];
    length := Decode(prefix[..]);
    buffer := new byte[length];
    n := file.Read(buffer);
  }

  /** Reading back what was written returns the original bytes and length, for every length of a size_t. */
  method RoundTrip(buffer: seq<byte>, length: nat) returns (copy: array<byte>, copyLength: nat)
    requires length <= |buffer| && length < 0x1_0000_0000_0000_0000
    ensures copyLength == length && copy[..] == buffer[..length]
  {
    var file := WriteTempFile(buffer, length);
    copy, copyLength := ReadTempFile(file);
    SizeTWidth();
    DecodeEncode(length, 8);
    assert file.data[..8] == Encode(length, 8);
  }
}
