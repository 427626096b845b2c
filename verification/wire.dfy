/** The byte-level command/response format shared by the Flipper apps and the PC
    companion: a command packet is the command byte as two upper-case hex digits
    followed by ASCII payload text; a response is a 9-byte header (command byte,
    little-endian 32-bit status, little-endian 32-bit progress) followed by text. */
module Wire {
  import opened Seqs

  type Byte = b: int | 0 <= b < 256

  datatype Option<T> = None | Some(value: T)

  /** Command codes, as both sides define them. */
  const CMD_HELLO: Byte := 0x01
  const CMD_DETECT_DISKS: Byte := 0x02
  const CMD_PARTITION: Byte := 0x03
  const CMD_FORMAT: Byte := 0x04
  const CMD_MOUNT: Byte := 0x05
  const CMD_DOWNLOAD: Byte := 0x06
  const CMD_INSTALL: Byte := 0x07
  const CMD_CONFIGURE: Byte := 0x08
  const CMD_FINISH: Byte := 0x09
  const CMD_STATUS: Byte := 0x0A
  const CMD_ERROR: Byte := 0xFF

  const U32_LIMIT: nat := 0x1_0000_0000
  const HEADER_SIZE: nat := 9

  // ---------------------------------------------------------------------------
  // Hex prefix

  predicate IsUpperHex(c: char) {
    '0' <= c <= '9' || 'A' <= c <= 'F'
  }

  function HexDigit(d: int): (c: char)
    requires 0 <= d < 16
    ensures IsUpperHex(c) && HexValue(c) == d
  {
    if d < 10 then ('0' as int + d) as char else ('A' as int + (d - 10)) as char
  }

  function HexValue(c: char): (d: int)
    requires IsUpperHex(c)
    ensures 0 <= d < 16
  {
    if c <= '9' then c as int - '0' as int else c as int - 'A' as int + 10
  }

  /** `%02X` of a byte: exactly two upper-case hex digits, high nibble first. */
  function Hex2(b: Byte): (s: string)
    ensures |s| == 2 && IsUpperHex(s[0]) && IsUpperHex(s[1])
    ensures HexValue(s[0]) * 16 + HexValue(s[1]) == b
  {
    [HexDigit(b / 16), HexDigit(b % 16)]
  }

  /** The command text `%02X%s`; a NULL payload is printed as nothing. */
  function CommandText(cmd: Byte, data: Option<string>): (s: string)
    ensures |s| == 2 + (if data.Some? then |data.value| else 0)
    ensures s[..2] == Hex2(cmd)
    ensures data.Some? ==> s[2..] == data.value
  {
    Hex2(cmd) + (if data.Some? then data.value else "")
  }

  /** Reads a command text back: two upper-case hex digits, then the payload. */
  function ParseCommandText(s: string): (r: Option<(Byte, string)>)
    ensures r.None? <==> |s| < 2 || !IsUpperHex(s[0]) || !IsUpperHex(s[1])
  {
    if |s| < 2 || !IsUpperHex(s[0]) || !IsUpperHex(s[1]) then None
    else Some((HexValue(s[0]) * 16 + HexValue(s[1]), s[2..]))
  }

  lemma CommandTextRoundTrip(cmd: Byte, data: string)
    ensures ParseCommandText(CommandText(cmd, Some(data))) == Some((cmd, data))
  {
    var s := CommandText(cmd, Some(data));
    assert s[0] == Hex2(cmd)[0] && s[1] == Hex2(cmd)[1];
  }

  lemma CommandTextCanonical(s: string, cmd: Byte, data: string)
    requires ParseCommandText(s) == Some((cmd, data))
    ensures CommandText(cmd, Some(data)) == s
  {
    var h := Hex2(cmd);
    assert HexValue(h[0]) * 16 + HexValue(h[1]) == HexValue(s[0]) * 16 + HexValue(s[1]);
    HexPairInjective(h[0], h[1], s[0], s[1]);
    assert s == s[..2] + s[2..];
  }

  lemma HexPairInjective(a: char, b: char, c: char, d: char)
    requires IsUpperHex(a) && IsUpperHex(b) && IsUpperHex(c) && IsUpperHex(d)
    requires HexValue(a) * 16 + HexValue(b) == HexValue(c) * 16 + HexValue(d)
    ensures a == c && b == d
  {
  }

  // ---------------------------------------------------------------------------
  // ASCII

  predicate IsAscii(s: string) {
    forall i :: 0 <= i < |s| ==> s[i] as int < 128
  }

  lemma AsciiConcat(a: string, b: string)
    requires IsAscii(a) && IsAscii(b)
    ensures IsAscii(a + b)
  {
    forall i | 0 <= i < |a + b| ensures (a + b)[i] as int < 128 {
      if i >= |a| {
        assert (a + b)[i] == b[i - |a|];
      }
    }
  }

  /** `str.encode('ascii')`: fails on the first character above 127. */
  function EncodeAscii(s: string): (r: Option<seq<Byte>>)
    ensures r.Some? <==> IsAscii(s)
    ensures r.Some? ==> |r.value| == |s| && forall i :: 0 <= i < |s| ==> r.value[i] == s[i] as int
  {
    if IsAscii(s) then Some(seq(|s|, i requires 0 <= i < |s| => s[i] as int as Byte)) else None
  }

  predicate AllAscii(b: seq<Byte>) {
    forall i :: 0 <= i < |b| ==> b[i] < 128
  }

  /** `bytes.decode('ascii', errors='ignore')`: bytes above 127 are dropped. */
  function DecodeAsciiIgnore(b: seq<Byte>): (s: string)
    ensures |s| <= |b| && IsAscii(s)
    ensures |s| == |b| <==> AllAscii(b)
  {
    if b == [] then ""
    else (if b[0] < 128 then [b[0] as char] else []) + DecodeAsciiIgnore(b[1..])
  }

  /** A single byte decodes to its character when it is ASCII, else to nothing. */
  lemma DecodeAsciiIgnoreByte(x: Byte)
    ensures DecodeAsciiIgnore([x]) == if x < 128 then [x as char] else []
  {
    assert [x][1..] == [];
  }

  /** Decoding works byte by byte: the text of a concatenation is the
      concatenation of the texts. With the one-byte case this fixes the
      decoder: the ASCII bytes are kept, in order, and the others dropped. */
  /** Decoding a byte string is decoding its first byte, then the rest. */
  lemma DecodeAsciiIgnoreCons(x: Byte, t: seq<Byte>)
    ensures DecodeAsciiIgnore([x] + t) == DecodeAsciiIgnore([x]) + DecodeAsciiIgnore(t)
  {
    assert ([x] + t)[0] == x && ([x] + t)[1..] == t;
    DecodeAsciiIgnoreByte(x);
  }

  lemma {:induction false} DecodeAsciiIgnoreConcat(a: seq<Byte>, b: seq<Byte>)
    ensures DecodeAsciiIgnore(a + b) == DecodeAsciiIgnore(a) + DecodeAsciiIgnore(b)
    decreases |a|
  {
    if a == [] {
      assert a + b == b;
    } else {
      var x, t := a[0], a[1..];
      assert a == [x] + t;
      assert a + b == [x] + (t + b);
      DecodeAsciiIgnoreCons(x, t + b);
      DecodeAsciiIgnoreConcat(t, b);
      DecodeAsciiIgnoreCons(x, t);
      AppendAssoc(DecodeAsciiIgnore([x]), DecodeAsciiIgnore(t), DecodeAsciiIgnore(b));
    }
  }


  lemma {:induction false} DecodeAsciiOfEncoded(s: string)
    requires IsAscii(s)
    ensures DecodeAsciiIgnore(EncodeAscii(s).value) == s
  {
    if s != [] {
      var b := EncodeAscii(s).value;
      DecodeAsciiOfEncoded(s[1..]);
      assert b[1..] == EncodeAscii(s[1..]).value;
      assert [b[0] as char] + s[1..] == s;
    }
  }

  lemma {:induction false} DecodeAsciiKeepsAll(b: seq<Byte>)
    requires AllAscii(b)
    ensures |DecodeAsciiIgnore(b)| == |b|
    ensures EncodeAscii(DecodeAsciiIgnore(b)) == Some(b)
  {
    if b != [] {
      DecodeAsciiKeepsAll(b[1..]);
      var t := DecodeAsciiIgnore(b[1..]);
      var s := DecodeAsciiIgnore(b);
      assert s == [b[0] as char] + t;
      assert IsAscii(s);
      var e := EncodeAscii(s).value;
      forall i | 0 <= i < |b| ensures e[i] == b[i] {
        if i > 0 {
          assert s[i] == t[i - 1];
          assert EncodeAscii(t).value[i - 1] == b[1..][i - 1];
        }
      }
      assert e == b;
    }
  }

  // ---------------------------------------------------------------------------
  // Command packets (PC side): ASCII bytes of the command text

  /** The packet `f"{command:02X}{data}".encode('ascii')`, or None when the
      encoding raises because the payload is not ASCII. */
  function EncodePacket(cmd: Byte, data: string): (r: Option<seq<Byte>>)
    ensures r.Some? <==> IsAscii(data)
    ensures r.Some? ==> |r.value| == 2 + |data|
  {
    var text := CommandText(cmd, Some(data));
    assert IsAscii(data) ==> IsAscii(text);
    assert !IsAscii(data) ==> !IsAscii(text) by {
      if !IsAscii(data) {
        var i :| 0 <= i < |data| && data[i] as int >= 128;
        assert text[i + 2] == data[i];
      }
    }
    EncodeAscii(text)
  }

  function DecodePacket(p: seq<Byte>): (r: Option<(Byte, string)>)
  {
    if AllAscii(p) then ParseCommandText(DecodeAsciiIgnore(p)) else None
  }

  lemma PacketRoundTrip(cmd: Byte, data: string)
    requires IsAscii(data)
    ensures EncodePacket(cmd, data).Some?
    ensures DecodePacket(EncodePacket(cmd, data).value) == Some((cmd, data))
  {
    var text := CommandText(cmd, Some(data));
    var p := EncodePacket(cmd, data).value;
    assert p == EncodeAscii(text).value;
    assert AllAscii(p);
    DecodeAsciiOfEncoded(text);
    CommandTextRoundTrip(cmd, data);
  }

  lemma PacketCanonical(p: seq<Byte>, cmd: Byte, data: string)
    requires DecodePacket(p) == Some((cmd, data))
    ensures EncodePacket(cmd, data) == Some(p)
  {
    var text := DecodeAsciiIgnore(p);
    DecodeAsciiKeepsAll(p);
    CommandTextCanonical(text, cmd, data);
  }

  // ---------------------------------------------------------------------------
  // Little-endian 32-bit fields

  function U32FromLE(b: seq<Byte>): (v: nat)
    requires |b| == 4
    ensures v < U32_LIMIT
  {
    b[0] as int + 0x100 * (b[1] as int + 0x100 * (b[2] as int + 0x100 * b[3] as int))
  }

  function U32ToLE(v: nat): (b: seq<Byte>)
    requires v < U32_LIMIT
    ensures |b| == 4
  {
    [v % 0x100, (v / 0x100) % 0x100, (v / 0x1_0000) % 0x100, v / 0x100_0000]
  }

  /** Splitting off the low byte of `x + 256 * y`. */
  lemma LowByte(x: int, y: int)
    requires 0 <= x < 0x100 && 0 <= y
    ensures (x + 0x100 * y) % 0x100 == x && (x + 0x100 * y) / 0x100 == y
  {
  }

  lemma U32RoundTrip(v: nat)
    requires v < U32_LIMIT
    ensures U32FromLE(U32ToLE(v)) == v
  {
  }

  lemma U32RoundTripBytes(b: seq<Byte>)
    requires |b| == 4
    ensures U32ToLE(U32FromLE(b)) == b
  {
    var hi := b[2] as int + 0x100 * b[3] as int;
    var mid := b[1] as int + 0x100 * hi;
    var v := b[0] as int + 0x100 * mid;
    LowByte(b[0], mid);
    LowByte(b[1], hi);
    LowByte(b[2], b[3]);
    assert v / 0x1_0000 == mid / 0x100;
    assert v / 0x100_0000 == hi / 0x100;
  }

  // ---------------------------------------------------------------------------
  // Responses

  /** A decoded response: the Python tuple (command, status, progress, text),
      and the fields of the packed C struct. */
  datatype Response = Response(command: Byte, status: nat, progress: nat, data: string)

  predicate Encodable(r: Response) {
    r.status < U32_LIMIT && r.progress < U32_LIMIT && IsAscii(r.data)
  }

  /** `receive_response` once bytes have been read: None below the 9-byte header. */
  function DecodeResponse(raw: seq<Byte>): (r: Option<Response>)
    ensures r.None? <==> |raw| < HEADER_SIZE
    ensures r.Some? ==> r.value.status < U32_LIMIT && r.value.progress < U32_LIMIT
    ensures r.Some? ==> |r.value.data| <= |raw| - HEADER_SIZE && IsAscii(r.value.data)
    ensures r.Some? ==> r.value.command == raw[0] && U32ToLE(r.value.status) == raw[1..5]
                        && U32ToLE(r.value.progress) == raw[5..9]
    ensures r.Some? ==> r.value.data == DecodeAsciiIgnore(raw[9..])
  {
    if |raw| < HEADER_SIZE then None
    else
      U32RoundTripBytes(raw[1..5]);
      U32RoundTripBytes(raw[5..9]);
      Some(Response(raw[0], U32FromLE(raw[1..5]), U32FromLE(raw[5..9]),
                    DecodeAsciiIgnore(raw[9..])))
  }

  function EncodeResponse(r: Response): (raw: seq<Byte>)
    requires Encodable(r)
    ensures |raw| == HEADER_SIZE + |r.data|
  {
    [r.command] + U32ToLE(r.status) + U32ToLE(r.progress) + EncodeAscii(r.data).value
  }

  lemma ResponseRoundTrip(r: Response)
    requires Encodable(r)
    ensures DecodeResponse(EncodeResponse(r)) == Some(r)
  {
    var raw := EncodeResponse(r);
    assert raw[1..5] == U32ToLE(r.status);
    assert raw[5..9] == U32ToLE(r.progress);
    assert raw[9..] == EncodeAscii(r.data).value;
    U32RoundTrip(r.status);
    U32RoundTrip(r.progress);
    DecodeAsciiOfEncoded(r.data);
  }

  lemma ResponseRoundTripBytes(raw: seq<Byte>)
    requires |raw| >= HEADER_SIZE && AllAscii(raw[9..])
    ensures DecodeResponse(raw).Some? && Encodable(DecodeResponse(raw).value)
    ensures EncodeResponse(DecodeResponse(raw).value) == raw
  {
    var r := DecodeResponse(raw).value;
    U32RoundTripBytes(raw[1..5]);
    U32RoundTripBytes(raw[5..9]);
    DecodeAsciiKeepsAll(raw[9..]);
    assert raw == [raw[0]] + raw[1..5] + raw[5..9] + raw[9..];
  }
}
