/** appb/hexdump.c: the dump loop, and a parser that shows the printed text loses nothing. */
module HexDump {
  import opened Files
  import opened Options

  // ---------------------------------------------------------------- hexadecimal

  function Digit(d: nat): char
    requires d < 16
  {
    "0123456789abcdef"[d]
  }

  function DigitValue(c: char): Option<nat>
  {
    if '0' <= c <= '9' then Some(c as int - '0' as int)
    else if 'a' <= c <= 'f' then Some(c as int - 'a' as int + 10)
    else None
  }

  /** `%x` */
  function Hex(n: nat): string
  {
    if n < 16 then [Digit(n)] else Hex(n / 16) + [Digit(n % 16)]
  }

  function Zeros(k: nat): string { seq(k, _ => '0') }

  /** `%06x` */
  function Hex6(n: nat): string
  {
    var h := Hex(n);
    if |h| < 6 then Zeros(6 - |h|) + h else h
  }

  /** `%02x` of an unsigned char */
  function Hex2(b: byte): string { [Digit(b as int / 16), Digit(b as int % 16)] }

  function ParseHex(s: string): Option<nat>
  {
    if s == "" then Some(0)
    else
      match (ParseHex(s[..|s| - 1]), DigitValue(s[|s| - 1]))
      case (Some(high), Some(d)) => Some(16 * high + d)
      case _ => None
  }

  lemma DigitRoundTrip(d: nat)
    requires d < 16
    ensures DigitValue(Digit(d)) == Some(d) && Digit(d) != ':' && Digit(d) != '\n' && Digit(d) != ' '
  {}

  lemma {:induction false} ParseHexDigits(n: nat)
    ensures ParseHex(Hex(n)) == Some(n)
    ensures forall c | c in Hex(n) :: DigitValue(c).Some?
  {
    if n < 16 {
      DigitRoundTrip(n);
      assert ParseHex([]) == Some(0) && [Digit(n)][..0] == [];
    } else {
      ParseHexDigits(n / 16);
      DigitRoundTrip(n % 16);
      assert Hex(n)[..|Hex(n)| - 1] == Hex(n / 16);
    }
  }

  /** Leading zeros change nothing. */
  lemma {:induction false} ParseZeros(zeros: nat, h: string)
    ensures ParseHex(Zeros(zeros) + h) == ParseHex(h)
    decreases zeros + |h|
  {
    var all := Zeros(zeros) + h;
    if h != "" {
      assert all[..|all| - 1] == Zeros(zeros) + h[..|h| - 1];
      ParseZeros(zeros, h[..|h| - 1]);
    } else if zeros > 0 {
      assert all[..|all| - 1] == Zeros(zeros - 1) + h;
      ParseZeros(zeros - 1, h);
    } else {
      assert all == h;
    }
  }

  lemma Hex6RoundTrip(n: nat)
    ensures ParseHex(Hex6(n)) == Some(n) && |Hex6(n)| >= 6
    ensures forall c | c in Hex6(n) :: DigitValue(c).Some?
  {
    ParseHexDigits(n);
    if |Hex(n)| < 6 {
      ParseZeros(6 - |Hex(n)|, Hex(n));
    }
  }

  /** What `%06x` promises: hexadecimal digits of the number, at least six, and no leading zero beyond that. */
  predicate IsHex6(t: string, n: nat)
  {
    && |t| >= 6 && (forall k | 0 <= k < |t| :: t[k] in "0123456789abcdef")
    && ParseHex(t) == Some(n) && (|t| > 6 ==> t[0] != '0')
  }

  lemma {:induction false} HexDigits(n: nat)
    ensures Hex(n) != "" && (n > 0 ==> Hex(n)[0] != '0')
  {
    if n >= 16 {
      HexDigits(n / 16);
    }
  }

  lemma DigitOfValue(c: char)
    requires DigitValue(c).Some?
    ensures DigitValue(c).value < 16 && Digit(DigitValue(c).value) == c && (DigitValue(c).value == 0 <==> c == '0')
  {}

  lemma DigitIsListed(c: char)
    requires DigitValue(c).Some?
    ensures c in "0123456789abcdef"
  {
    DigitOfValue(c);
    assert c == "0123456789abcdef"[DigitValue(c).value];
  }

  /** Digits without a leading zero are those that `%x` prints. */
  lemma {:induction false} ParsedIsHex(t: string, n: nat)
    requires t != "" && ParseHex(t) == Some(n) && (|t| > 1 ==> t[0] != '0')
    ensures t == Hex(n) && (t[0] != '0' ==> n > 0)
    decreases |t|
  {
    var last := |t| - 1;
    var high, low := ParseHex(t[..last]).value, DigitValue(t[last]).value;
    DigitOfValue(t[last]);
    assert n == 16 * high + low;
    if last == 0 {
      assert t[..0] == "";
    } else {
      ParsedIsHex(t[..last], high);
      assert n / 16 == high && n % 16 == low;
      assert t == t[..last] + [t[last]];
    }
  }

  lemma {:induction false} StripZeros(t: string) returns (k: nat)
    requires t != ""
    ensures k < |t| && t == Zeros(k) + t[k..] && (|t| - k > 1 ==> t[k] != '0')
    decreases |t|
  {
    if |t| > 1 && t[0] == '0' {
      var rest := StripZeros(t[1..]);
      k := rest + 1;
      assert Zeros(k) == ['0'] + Zeros(rest);
      assert t == ['0'] + t[1..] && t[1..][rest..] == t[k..];
    } else {
      k := 0;
      assert Zeros(0) + t == t && t[0..] == t;
    }
  }

  lemma Hex6IsOne(n: nat)
    ensures IsHex6(Hex6(n), n)
  {
    var t := Hex6(n);
    Hex6RoundTrip(n);
    HexDigits(n);
    forall k | 0 <= k < |t| ensures t[k] in "0123456789abcdef" {
      DigitIsListed(t[k]);
    }
    if |t| > 6 {
      assert t == Hex(n);
      assert n >= 16;
    }
  }

  lemma Hex6IsOnly(t: string, n: nat)
    requires IsHex6(t, n)
    ensures t == Hex6(n)
  {
    if |t| > 6 {
      ParsedIsHex(t, n);
    } else {
      var k := StripZeros(t);
      var rest := t[k..];
      ParseZeros(k, rest);
      ParsedIsHex(rest, n);
      assert |Hex(n)| == 6 - k;
    }
  }

  /** That determines the text. */
  lemma Hex6Iff(t: string, n: nat)
    ensures IsHex6(t, n) <==> t == Hex6(n)
  {
    Hex6IsOne(n);
    if IsHex6(t, n) {
      Hex6IsOnly(t, n);
    }
  }

  // ---------------------------------------------------------------- lines

  datatype Line = Line(offset: nat, bytes: seq<byte>)

  function BytesText(bytes: seq<byte>): string
  {
    if bytes == [] then "" else Hex2(bytes[0]) + " " + BytesText(bytes[1..])
  }

  function LineBody(l: Line): string { "0x" + Hex6(l.offset) + ": " + BytesText(l.bytes) }

  function LineText(l: Line): string { LineBody(l) + "\n" }

  function Text(lines: seq<Line>): string
  {
    if lines == [] then "" else LineText(lines[0]) + Text(lines[1..])
  }

  /** Line `k` of the dump: 16 bytes from 16k, fewer at the end; `%x` prints the low 32 bits of the offset. */
  function DumpLine(data: seq<byte>, k: nat): Line
    requires 16 * k <= |data|
  {
    Line(16 * k % 0x1_0000_0000, data[16 * k..Min(16 * k + 16, |data|)])
  }

  function DumpLines(data: seq<byte>): seq<Line>
  {
    seq(|data| / 16 + 1, k requires 0 <= k <= |data| / 16 => DumpLine(data, k))
  }

  function Joined(lines: seq<Line>): seq<byte>
  {
    if lines == [] then [] else lines[0].bytes + Joined(lines[1..])
  }

  // ---------------------------------------------------------------- the parser

  /** The position of the first `c`, or the length. */
  function Find(s: string, c: char): (k: nat)
    ensures k <= |s| && (k < |s| ==> s[k] == c) && c !in s[..k]
  {
    if s == "" || s[0] == c then 0 else
      assert s[..Find(s[1..], c) + 1] == [s[0]] + s[1..][..Find(s[1..], c)];
      Find(s[1..], c) + 1
  }

  function ParseBytes(s: string): Option<seq<byte>>
  {
    if s == "" then Some([])
    else if |s| < 3 || s[2] != ' ' then None
    else
      match (DigitValue(s[0]), DigitValue(s[1]), ParseBytes(s[3..]))
      case (Some(h), Some(l), Some(rest)) => if 16 * h + l < 256 then Some([(16 * h + l) as byte] + rest) else None
      case _ => None
  }

  /** Reads `0x<hex>: ` and then the bytes; the line comes without its newline. */
  function ParseLine(s: string): Option<Line>
  {
    var colon := Find(s, ':');
    if colon < 2 || colon + 1 >= |s| || s[..2] != "0x" || s[colon + 1] != ' ' then None
    else
      match (ParseHex(s[2..colon]), ParseBytes(s[colon + 2..]))
      case (Some(offset), Some(bytes)) => Some(Line(offset, bytes))
      case _ => None
  }

  function ParseText(s: string): Option<seq<Line>>
    decreases |s|
  {
    if s == "" then Some([])
    else
      var end := Find(s, '\n');
      if end == |s| then None
      else
        match (ParseLine(s[..end]), ParseText(s[end + 1..]))
        case (Some(line), Some(rest)) => Some([line] + rest)
        case _ => None
  }

  lemma {:induction false} FindAfter(prefix: string, c: char, rest: string)
    requires c !in prefix
    ensures Find(prefix + [c] + rest, c) == |prefix|
  {
    var s := prefix + [c] + rest;
    assert s[|prefix|] == c && forall k | 0 <= k < |prefix| :: s[k] == prefix[k];
    assert forall k | |prefix| < k <= |s| :: s[..k][|prefix|] == c;
  }

  lemma ByteRoundTrip(b: byte)
    ensures var high, low := DigitValue(Hex2(b)[0]), DigitValue(Hex2(b)[1]);
      high.Some? && low.Some? && 16 * high.value + low.value == b as int
    ensures ':' !in Hex2(b) && '\n' !in Hex2(b)
  {
    DigitRoundTrip(b as int / 16);
    DigitRoundTrip(b as int % 16);
  }

  lemma {:induction false} BytesRoundTrip(bytes: seq<byte>)
    ensures ParseBytes(BytesText(bytes)) == Some(bytes)
  {
    if bytes != [] {
      ByteRoundTrip(bytes[0]);
      BytesRoundTrip(bytes[1..]);
      var text := BytesText(bytes);
      assert text[..2] == Hex2(bytes[0]) && text[3..] == BytesText(bytes[1..]);
      assert text[0] == Hex2(bytes[0])[0] && text[1] == Hex2(bytes[0])[1];
      assert bytes == [bytes[0]] + bytes[1..];
    }
  }

  lemma {:induction false} BytesArePlain(bytes: seq<byte>)
    ensures ':' !in BytesText(bytes) && '\n' !in BytesText(bytes)
  {
    if bytes != [] {
      ByteRoundTrip(bytes[0]);
      BytesArePlain(bytes[1..]);
    }
  }

  /** A line splits at its colon. */
  lemma {:induction false} ParseLineParts(hex: string, text: string)
    requires forall c | c in hex :: DigitValue(c).Some?
    ensures Find("0x" + hex + ": " + text, ':') == 2 + |hex|
    ensures var s := "0x" + hex + ": " + text;
      s[..2] == "0x" && s[2..2 + |hex|] == hex && s[2 + |hex| + 1] == ' ' && s[2 + |hex| + 2..] == text
  {
    var before := "0x" + hex;
    var s := "0x" + hex + ": " + text;
    assert s == before + [':'] + (" " + text);
    assert DigitValue(':') == None;
    assert ':' !in before;
    FindAfter(before, ':', " " + text);
  }

  lemma LineRoundTrip(l: Line)
    ensures ParseLine(LineBody(l)) == Some(l)
  {
    Hex6RoundTrip(l.offset);
    BytesRoundTrip(l.bytes);
    ParseLineParts(Hex6(l.offset), BytesText(l.bytes));
  }

  lemma NoNewline(l: Line)
    ensures '\n' !in LineBody(l)
  {
    Hex6RoundTrip(l.offset);
    BytesArePlain(l.bytes);
    assert DigitValue('\n') == None;
    assert '\n' !in Hex6(l.offset);
  }

  lemma {:induction false} ParseOneLine(body: string, rest: string)
    requires '\n' !in body
    ensures Find(body + "\n" + rest, '\n') == |body|
    ensures (body + "\n" + rest)[..|body|] == body && (body + "\n" + rest)[|body| + 1..] == rest
  {
    assert body + "\n" + rest == body + ['\n'] + rest;
    FindAfter(body, '\n', rest);
  }

  /** Parsing inverts printing, for all lines. */
  lemma {:induction false} TextRoundTrip(lines: seq<Line>)
    ensures ParseText(Text(lines)) == Some(lines)
  {
    if lines != [] {
      LineRoundTrip(lines[0]);
      NoNewline(lines[0]);
      TextRoundTrip(lines[1..]);
      ParseOneLine(LineBody(lines[0]), Text(lines[1..]));
      assert lines == [lines[0]] + lines[1..];
    }
  }

  lemma {:induction false} TextConcat(a: seq<Line>, b: seq<Line>)
    ensures Text(a + b) == Text(a) + Text(b)
  {
    if a == [] {
      assert a + b == b;
    } else {
      assert (a + b)[1..] == a[1..] + b;
      TextConcat(a[1..], b);
    }
  }

  lemma {:induction false} BytesTextAppend(bytes: seq<byte>, b: byte)
    ensures BytesText(bytes + [b]) == BytesText(bytes) + Hex2(b) + " "
  {
    if bytes == [] {
      assert bytes + [b] == [b] && BytesText([]) == "";
    } else {
      assert (bytes + [b])[1..] == bytes[1..] + [b];
      BytesTextAppend(bytes[1..], b);
    }
  }

  lemma {:induction false} TextAppend(lines: seq<Line>, l: Line)
    ensures Text(lines + [l]) == Text(lines) + LineText(l)
  {
    assert Text([l]) == LineText(l) + Text([]);
    TextConcat(lines, [l]);
  }

  lemma TextStep(lines: seq<Line>, k: nat)
    requires k < |lines|
    ensures Text(lines[..k + 1]) == Text(lines[..k]) + LineText(lines[k])
  {
    assert lines[..k + 1] == lines[..k] + [lines[k]];
    TextAppend(lines[..k], lines[k]);
  }

  /** The lines from `k` on hold the bytes from 16k on. */
  lemma JoinedFrom(data: seq<byte>, k: nat)
    requires k <= |data| / 16 + 1
    ensures Joined(DumpLines(data)[k..]) == if 16 * k <= |data| then data[16 * k..] else []
    decreases |data| / 16 + 1 - k
  {
    var lines := DumpLines(data);
    if k <= |data| / 16 {
      JoinedFrom(data, k + 1);
      assert lines[k..][1..] == lines[k + 1..];
    }
  }

  /** One line per 16 bytes and a shorter, possibly empty last one, line k starting at offset 16k. */
  lemma DumpShape(data: seq<byte>)
    ensures |DumpLines(data)| == |data| / 16 + 1
    ensures forall k | 0 <= k < |DumpLines(data)| :: DumpLines(data)[k].offset == 16 * k % 0x1_0000_0000
    ensures forall k | 0 <= k < |data| / 16 :: |DumpLines(data)[k].bytes| == 16
    ensures |DumpLines(data)[|data| / 16].bytes| == |data| % 16
  {}

  /** The text is a faithful picture of the file. */
  lemma DumpRoundTrip(data: seq<byte>)
    ensures ParseText(Text(DumpLines(data))) == Some(DumpLines(data)) && Joined(DumpLines(data)) == data
  {
    var lines := DumpLines(data);
    TextRoundTrip(lines);
    JoinedFrom(data, 0);
    assert lines[0..] == lines;
  }

  /** A two-digit hexadecimal byte and a space. */
  predicate IsByteText(t: string, b: byte)
  {
    |t| == 3 && t[0] == "0123456789abcdef"[b as int / 16] && t[1] == "0123456789abcdef"[b as int % 16] && t[2] == ' '
  }

  /** The format of lines 24-27, character by character, for an offset of `width` digits. */
  predicate PrintedAs(text: string, l: Line, width: nat)
  {
    && |text| == 5 + width + 3 * |l.bytes|
    && text[..2] == "0x" && IsHex6(text[2..2 + width], l.offset) && text[2 + width..4 + width] == ": "
    && (forall k | 0 <= k < |l.bytes| :: IsByteText(text[4 + width + 3 * k..7 + width + 3 * k], l.bytes[k]))
    && text[|text| - 1] == '\n'
  }

  predicate WellPrinted(text: string, l: Line) { exists width: nat | width <= |text| :: PrintedAs(text, l, width) }

  lemma {:induction false} BytesTextAt(bytes: seq<byte>)
    ensures |BytesText(bytes)| == 3 * |bytes|
    ensures forall k | 0 <= k < |bytes| :: IsByteText(BytesText(bytes)[3 * k..3 * k + 3], bytes[k])
  {
    if bytes != [] {
      var text, rest := BytesText(bytes), BytesText(bytes[1..]);
      DigitRoundTrip(bytes[0] as int / 16);
      DigitRoundTrip(bytes[0] as int % 16);
      BytesTextAt(bytes[1..]);
      forall k | 0 <= k < |bytes| ensures IsByteText(text[3 * k..3 * k + 3], bytes[k]) {
        if k > 0 {
          assert text[3 * k..3 * k + 3] == rest[3 * (k - 1)..3 * (k - 1) + 3];
          assert bytes[1..][k - 1] == bytes[k];
        }
      }
    }
  }

  lemma LineParts(hex: string, body: string)
    ensures var text := "0x" + hex + ": " + body + "\n"; var width := |hex|;
      && |text| == 5 + width + |body|
      && text[..2] == "0x" && text[2..2 + width] == hex && text[2 + width..4 + width] == ": "
      && (forall a, b | 0 <= a <= b <= |body| :: text[4 + width + a..4 + width + b] == body[a..b])
      && text[|text| - 1] == '\n'
  {
    var text, width := "0x" + hex + ": " + body + "\n", |hex|;
    assert forall k | 0 <= k < |body| :: text[4 + width + k] == body[k];
  }

  /** Every line is printed in the format of the source. */
  lemma LineIsWellPrinted(l: Line)
    ensures WellPrinted(LineText(l), l)
  {
    var hex, body := Hex6(l.offset), BytesText(l.bytes);
    Hex6IsOne(l.offset);
    BytesTextAt(l.bytes);
    LineParts(hex, body);
    assert LineText(l) == "0x" + hex + ": " + body + "\n";
    forall k | 0 <= k < |l.bytes|
      ensures IsByteText(LineText(l)[4 + |hex| + 3 * k..7 + |hex| + 3 * k], l.bytes[k])
    {
      assert LineText(l)[4 + |hex| + 3 * k..4 + |hex| + (3 * k + 3)] == body[3 * k..3 * k + 3];
    }
    assert PrintedAs(LineText(l), l, |hex|);
  }

  /** What a full or a last, short read at offset 16k delivers is line k. */
  lemma ReadIsLine(data: seq<byte>, k: nat)
    requires k < |DumpLines(data)|
    ensures 16 * k <= |data| && DumpLines(data)[k] == DumpLine(data, k)
    ensures |DumpLine(data, k).bytes| == 16 <==> k + 1 < |DumpLines(data)|
  {
    assert k <= |data| / 16;
  }

  /** In particular an empty file gives one line with six zeros. */
  lemma DumpIsWellPrinted(data: seq<byte>)
    ensures forall k | 0 <= k < |DumpLines(data)| :: WellPrinted(LineText(DumpLines(data)[k]), DumpLines(data)[k])
    ensures data == [] ==> Text(DumpLines(data)) == "0x000000: \n"
  {
    forall k | 0 <= k < |DumpLines(data)| ensures WellPrinted(LineText(DumpLines(data)[k]), DumpLines(data)[k]) {
      LineIsWellPrinted(DumpLines(data)[k]);
    }
    if data == [] {
      EmptyText();
      assert DumpLines(data) == [Line(0, [])];
    }
  }

  lemma EmptyText()
    ensures Text([Line(0, [])]) == "0x000000: \n"
  {
    assert Hex(0) == "0";
    assert Hex6(0) == "000000";
    assert LineBody(Line(0, [])) == "0x000000: ";
    assert Text([Line(0, [])]) == LineText(Line(0, [])) + Text([]);
  }

  // ---------------------------------------------------------------- the program

  /** Line 22: read the next bytes into the buffer. */
  method ReadChunk(file: File, buffer: array<byte>, ghost k: nat) returns (bytesRead: nat)
    requires buffer.Length == 16 && file.offset == 16 * k <= |file.data|
    modifies file`offset, buffer
    ensures bytesRead == |DumpLine(file.data, k).bytes| <= 16 && buffer[..bytesRead] == DumpLine(file.data, k).bytes
    ensures file.offset == 16 * k + bytesRead
  {
    bytesRead := file.Read(buffer);
  }

  /** Lines 24-27: print one line. */
  method PrintLine(offset: nat, buffer: array<byte>, bytesRead: nat) returns (out: string)
    requires bytesRead <= buffer.Length
    ensures out == LineText(Line(offset % 0x1_0000_0000, buffer[..bytesRead]))
    ensures WellPrinted(out, Line(offset % 0x1_0000_0000, buffer[..bytesRead]))
  {
    out := "0x" + Hex6(offset % 0x1_0000_0000) + ": ";
    ghost var head := out;
    for i := 0 to bytesRead
      invariant out == head + BytesText(buffer[..i])
    {
      BytesTextAppend(buffer[..i], buffer[i]);
      assert buffer[..i + 1] == buffer[..i] + [buffer[i]];
      out := out + Hex2(buffer[i]) + " ";
    }
    out := out + "\n";
    LineIsWellPrinted(Line(offset % 0x1_0000_0000, buffer[..bytesRead]));
  }

  /** Lines 20-30. Ends for every file, also when its length is a multiple of 16. */
  method Dump(file: File) returns (out: string)
    requires file.offset == 0
    modifies file`offset
    ensures out == Text(DumpLines(file.data))
    ensures ParseText(out) == Some(DumpLines(file.data)) && Joined(DumpLines(file.data)) == file.data
    ensures forall k | 0 <= k < |DumpLines(file.data)| :: WellPrinted(LineText(DumpLines(file.data)[k]), DumpLines(file.data)[k])
    ensures file.data == [] ==> out == "0x000000: \n"
  {
    var buffer := new byte[16];
    var offset := 0;
    out := "";
    ghost var lines := DumpLines(file.data);
    ghost var k := 0;
    var more := true;
    while more
      invariant k <= |lines| && out == Text(lines[..k]) && offset == file.offset
      invariant if more then k < |lines| && offset == 16 * k else k == |lines|
      decreases |lines| - k
    {
      ReadIsLine(file.data, k);
      var bytesRead := ReadChunk(file, buffer, k);
      var line := PrintLine(offset, buffer, bytesRead);
      TextStep(lines, k);
      out := out + line;
      offset := offset + bytesRead;
      more := bytesRead == buffer.Length;
      k := k + 1;
    }
    DumpRoundTrip(file.data);
    DumpIsWellPrinted(file.data);
    assert lines[..k] == lines;
  }
}
