/** Headers: encodings, frame types, and how a header is written and decoded. */
module HeaderCodec {
  import opened Primitives
  import opened Zdle
  import opened Buffers
  import Crc

  const HEADER_SIZE: nat := 32
  const HEADER_PAYLOAD_SIZE: nat := 5

  datatype Encoding = ZBIN | ZHEX | ZBIN32

  datatype Frame =
    | ZRQINIT | ZRINIT | ZSINIT | ZACK | ZFILE | ZSKIP | ZNAK | ZABORT | ZFIN | ZRPOS
    | ZDATA | ZEOF | ZFERR | ZCRC | ZCHALLENGE | ZCOMPL | ZCAN | ZFREECNT | ZCOMMAND | ZSTDERR

  type Flags = s: seq<byte> | |s| == 4 witness [0, 0, 0, 0]

  datatype Header = Header(encoding: Encoding, frame: Frame, flags: Flags) {
    /** The flags read as a little-endian 32-bit position. */
    function Count(): u32
    {
      FromLe(flags)
    }

    function WithCount(n: u32): Header
    {
      Header(encoding, frame, LeBytes(n))
    }
  }

  const ZACK_HEADER: Header := Header(ZHEX, ZACK, [0, 0, 0, 0])
  const ZDATA_HEADER: Header := Header(ZBIN32, ZDATA, [0, 0, 0, 0])
  const ZEOF_HEADER: Header := Header(ZBIN32, ZEOF, [0, 0, 0, 0])
  const ZFIN_HEADER: Header := Header(ZHEX, ZFIN, [0, 0, 0, 0])
  const ZNAK_HEADER: Header := Header(ZHEX, ZNAK, [0, 0, 0, 0])
  const ZRPOS_HEADER: Header := Header(ZHEX, ZRPOS, [0, 0, 0, 0])
  const ZRQINIT_HEADER: Header := Header(ZHEX, ZRQINIT, [0, 0, 0, 0])

  lemma CountRoundTrip(h: Header, n: u32)
    ensures h.WithCount(n).Count() == n
  {
    LeRoundTrip(n);
  }

  function EncodingByte(e: Encoding): (b: byte)
    ensures 0x41 <= b <= 0x43
  {
    match e
    case ZBIN => 0x41
    case ZHEX => 0x42
    case ZBIN32 => 0x43
  }

  function EncodingOf(b: byte): (e: Option<Encoding>)
    ensures e.Some? <==> 0x41 <= b <= 0x43
    ensures e.Some? ==> EncodingByte(e.value) == b
  {
    match b
    case 0x41 => Some(ZBIN)
    case 0x42 => Some(ZHEX)
    case 0x43 => Some(ZBIN32)
    case _ => None
  }

  function FrameByte(f: Frame): (b: byte)
    ensures b < 20
  {
    match f
    case ZRQINIT => 0
    case ZRINIT => 1
    case ZSINIT => 2
    case ZACK => 3
    case ZFILE => 4
    case ZSKIP => 5
    case ZNAK => 6
    case ZABORT => 7
    case ZFIN => 8
    case ZRPOS => 9
    case ZDATA => 10
    case ZEOF => 11
    case ZFERR => 12
    case ZCRC => 13
    case ZCHALLENGE => 14
    case ZCOMPL => 15
    case ZCAN => 16
    case ZFREECNT => 17
    case ZCOMMAND => 18
    case ZSTDERR => 19
  }

  function FrameOf(b: byte): (f: Option<Frame>)
    ensures f.Some? <==> b < 20
    ensures f.Some? ==> FrameByte(f.value) == b
  {
    match b
    case 0 => Some(ZRQINIT)
    case 1 => Some(ZRINIT)
    case 2 => Some(ZSINIT)
    case 3 => Some(ZACK)
    case 4 => Some(ZFILE)
    case 5 => Some(ZSKIP)
    case 6 => Some(ZNAK)
    case 7 => Some(ZABORT)
    case 8 => Some(ZFIN)
    case 9 => Some(ZRPOS)
    case 10 => Some(ZDATA)
    case 11 => Some(ZEOF)
    case 12 => Some(ZFERR)
    case 13 => Some(ZCRC)
    case 14 => Some(ZCHALLENGE)
    case 15 => Some(ZCOMPL)
    case 16 => Some(ZCAN)
    case 17 => Some(ZFREECNT)
    case 18 => Some(ZCOMMAND)
    case 19 => Some(ZSTDERR)
    case _ => None
  }

  /** Bytes of payload plus checksum, as they appear before unescaping. */
  function ReadSize(e: Encoding): nat
  {
    match e
    case ZBIN => HEADER_PAYLOAD_SIZE + 2
    case ZBIN32 => HEADER_PAYLOAD_SIZE + 4
    case ZHEX => (HEADER_PAYLOAD_SIZE + 2) * 2
  }

  function CrcLen(e: Encoding): nat
  {
    if e == ZBIN32 then 4 else 2
  }

  /** The checksum of `data` in wire order for an encoding. */
  function Checksum(e: Encoding, data: seq<byte>): (c: seq<byte>)
    ensures |c| == CrcLen(e)
  {
    if e == ZBIN32 then Crc.LeBytes32(Crc.Crc32Of(data)) else Crc.BeBytes16(Crc.Crc16Of(data))
  }

  // ---------------------------------------------------------------------
  // Hexadecimal text
  // ---------------------------------------------------------------------

  function HexDigit(n: nat): (c: byte)
    requires n < 16
  {
    if n < 10 then 0x30 + n else 0x61 + (n - 10)
  }

  function HexValue(c: byte): (n: Option<nat>)
    ensures n.Some? ==> n.value < 16
  {
    if 0x30 <= c <= 0x39 then Some(c - 0x30)
    else if 0x61 <= c <= 0x66 then Some(c - 0x61 + 10)
    else if 0x41 <= c <= 0x46 then Some(c - 0x41 + 10)
    else None
  }

  function Hex(data: seq<byte>): (h: seq<byte>)
    ensures |h| == 2 * |data|
    ensures forall i :: 0 <= i < |h| ==> !Special(h[i])
  {
    if data == [] then []
    else [HexDigit(data[0] / 16), HexDigit(data[0] % 16)] + Hex(data[1..])
  }

  function UnHex(text: seq<byte>): (data: Option<seq<byte>>)
    requires |text| % 2 == 0
    ensures data.Some? ==> |data.value| == |text| / 2
  {
    if text == [] then Some([])
    else
      var hi, lo, rest := HexValue(text[0]), HexValue(text[1]), UnHex(text[2..]);
      if hi.Some? && lo.Some? && rest.Some?
      then Some([(16 * hi.value + lo.value) as byte] + rest.value) else None
  }

  lemma {:induction false} HexRoundTrip(data: seq<byte>)
    ensures UnHex(Hex(data)) == Some(data)
    decreases |data|
  {
    if data != [] {
      HexRoundTrip(data[1..]);
      assert Hex(data)[2..] == Hex(data[1..]);
      assert data == [data[0]] + data[1..];
    }
  }

  // ---------------------------------------------------------------------
  // A header on the wire
  // ---------------------------------------------------------------------

  function Payload(h: Header): (p: seq<byte>)
    ensures |p| == HEADER_PAYLOAD_SIZE
  {
    [FrameByte(h.frame)] + h.flags
  }

  /** The characters between the encoding byte and the end of the header. */
  function Body(h: Header): (s: seq<byte>)
    ensures |s| == ReadSize(h.encoding)
  {
    var sealed := Payload(h) + Checksum(h.encoding, Payload(h));
    if h.encoding == ZHEX then Hex(sealed) else sealed
  }

  function Start(e: Encoding): seq<byte>
  {
    if e == ZHEX then [ZPAD, ZPAD, ZDLE, EncodingByte(e)] else [ZPAD, ZDLE, EncodingByte(e)]
  }

  /** The line ending of a hex header; nothing for the binary ones. */
  function Ending(h: Header): seq<byte>
  {
    if h.encoding != ZHEX then []
    else if h.frame == ZACK || h.frame == ZFIN then [CR, LF]
    else [CR, LF, XON]
  }

  /** A header up to its last checksum byte, and the whole of it. */
  function HeaderCore(h: Header): seq<byte>
  {
    Start(h.encoding) + Esc(Body(h))
  }

  function EncHeader(h: Header): seq<byte>
  {
    HeaderCore(h) + Ending(h)
  }

  /** No header is longer than 21 bytes, however much of it is escaped. */
  lemma HeaderSize(h: Header)
    ensures 0 < |HeaderCore(h)| <= |EncHeader(h)| <= 21
  {
    EscSize(Body(h));
    if h.encoding == ZHEX {
      EscPlain(Body(h));
    }
  }

  method WriteHeaderStart(port: Buffer, e: Encoding) returns (all: bool)
    requires port.Valid()
    modifies port`len, port.bytes
    ensures port.Valid() && Took(old(port.Contents()), port.capacity, Start(e), port.Contents(), all)
  {
    ghost var before, cap := port.Contents(), port.capacity;
    ghost var done: seq<byte> := [ZPAD];
    all := WriteByte(port, ZPAD);
    if !all {
      TookShort(before, cap, done, port.Contents(), Start(e)[1..]);
      assert done + Start(e)[1..] == Start(e);
      return;
    }
    if e == ZHEX {
      ghost var mid := port.Contents();
      all := WriteByte(port, ZPAD);
      TookThen(before, cap, done, mid, [ZPAD], port.Contents(), all);
      done := done + [ZPAD];
      if !all {
        TookShort(before, cap, done, port.Contents(), Start(e)[2..]);
        assert done + Start(e)[2..] == Start(e);
        return;
      }
    }
    ghost var mid := port.Contents();
    all := WriteByte(port, ZDLE);
    TookThen(before, cap, done, mid, [ZDLE], port.Contents(), all);
    done := done + [ZDLE];
    assert done + [EncodingByte(e)] == Start(e);
    if !all {
      TookShort(before, cap, done, port.Contents(), [EncodingByte(e)]);
      return;
    }
    mid := port.Contents();
    all := WriteByte(port, EncodingByte(e));
    TookThen(before, cap, done, mid, [EncodingByte(e)], port.Contents(), all);
  }

  method WriteHeaderEndHex(port: Buffer, h: Header) returns (all: bool)
    requires port.Valid() && h.encoding == ZHEX
    modifies port`len, port.bytes
    ensures port.Valid() && Took(old(port.Contents()), port.capacity, Ending(h), port.Contents(), all)
  {
    ghost var before, cap := port.Contents(), port.capacity;
    all := WriteByte(port, CR);
    if !all {
      TookShort(before, cap, [CR], port.Contents(), Ending(h)[1..]);
      assert [CR] + Ending(h)[1..] == Ending(h);
      return;
    }
    ghost var mid := port.Contents();
    all := WriteByte(port, LF);
    TookThen(before, cap, [CR], mid, [LF], port.Contents(), all);
    assert [CR] + [LF] == [CR, LF];
    if !all {
      TookShort(before, cap, [CR, LF], port.Contents(), Ending(h)[2..]);
      assert [CR, LF] + Ending(h)[2..] == Ending(h);
      return;
    }
    if h.frame != ZACK && h.frame != ZFIN {
      mid := port.Contents();
      all := WriteByte(port, XON);
      TookThen(before, cap, [CR, LF], mid, [XON], port.Contents(), all);
      assert [CR, LF] + [XON] == Ending(h);
    }
  }

  method MakeCrc(data: seq<byte>, e: Encoding) returns (sum: seq<byte>)
    ensures sum == Checksum(e, data)
  {
    if e == ZBIN32 {
      var crc := Crc.Crc32IsoHdlc(data);
      sum := Crc.LeBytes32(crc);
    } else {
      var crc := Crc.Crc16Xmodem(data);
      sum := Crc.BeBytes16(crc);
    }
  }

  /** Writes the header through the sink, a byte at a time. */
  method WriteHeader(port: Buffer, h: Header) returns (all: bool)
    requires port.Valid()
    modifies port`len, port.bytes
    ensures port.Valid() && Took(old(port.Contents()), port.capacity, EncHeader(h), port.Contents(), all)
  {
    ghost var before, cap := port.Contents(), port.capacity;
    ghost var start, body, ending := Start(h.encoding), Esc(Body(h)), Ending(h);
    assert EncHeader(h) == (start + body) + ending;
    assert (start + body) + ending == start + (body + ending);
    all := WriteHeaderStart(port, h.encoding);
    ghost var mid := port.Contents();
    if !all {
      TookShort(before, cap, start, mid, body + ending);
      return;
    }

    var out := new Buffer(HEADER_SIZE);
    var ok := out.Push(FrameByte(h.frame));
    ok := out.ExtendFromSlice(h.flags);
    assert out.Contents() == Payload(h);
    var crc := MakeCrc(out.bytes[..out.len], h.encoding);
    ok := out.ExtendFromSlice(crc);
    var sealed := out.bytes[..out.len];
    assert sealed == Payload(h) + Checksum(h.encoding, Payload(h));

    all := WriteSliceEscaped(port, if h.encoding == ZHEX then Hex(sealed) else sealed);
    if !all {
      TookAfter(before, cap, start, mid, body, port.Contents(), ending);
      return;
    }
    TookThen(before, cap, start, mid, body, port.Contents(), true);
    ghost var last := port.Contents();
    if h.encoding == ZHEX {
      all := WriteHeaderEndHex(port, h);
      TookThen(before, cap, start + body, last, ending, port.Contents(), all);
    } else {
      assert start + body + ending == start + body;
    }
  }

  /** A header always fits an empty buffer of this size. */
  method FillWithHeader(port: Buffer, h: Header)
    requires port.Holds(port.capacity, []) && port.capacity >= 21
    modifies port`len, port.bytes
    ensures port.Holds(port.capacity, EncHeader(h)) && port.len > 0
  {
    hide EncHeader;
    HeaderSize(h);
    var all := WriteHeader(port, h);
    assert [] + EncHeader(h)[..|EncHeader(h)|] == EncHeader(h);
  }

  // ---------------------------------------------------------------------
  // Decoding
  // ---------------------------------------------------------------------

  /** Checks the payload and checksum that follow an encoding byte. */
  function Decode(e: Encoding, data: seq<byte>): (r: Result<Header>)
  {
    var sealed :- Unwrap(e, data);
    if |sealed| < HEADER_PAYLOAD_SIZE + CrcLen(e) then Err(MalformedHeader)
    else
      var payload, crc := sealed[..HEADER_PAYLOAD_SIZE], sealed[HEADER_PAYLOAD_SIZE..];
      if crc != Checksum(e, payload) then Err(if e == ZBIN32 then UnexpectedCrc32 else UnexpectedCrc16)
      else
        var frame := FrameOf(payload[0]);
        if frame.None? then Err(MalformedFrame(payload[0]))
        else Ok(Header(e, frame.value, payload[1..]))
  }

  /** Hex text becomes bytes; binary data is taken as it is. */
  function Unwrap(e: Encoding, data: seq<byte>): Result<seq<byte>>
  {
    if e == ZHEX then
      if |data| % 2 != 0 then Err(MalformedHeader)
      else if |data| / 2 > HEADER_SIZE / 2 then Err(UnexpectedEof)
      else
        var raw := UnHex(data);
        if raw.None? then Err(MalformedHeader) else Ok(raw.value)
    else if |data| > HEADER_SIZE then Err(OutOfMemory)
    else Ok(data)
  }

  /** What was written decodes to the header that was written. */
  lemma DecodeBody(h: Header)
    ensures Decode(h.encoding, Body(h)) == Ok(h)
  {
    var p := Payload(h);
    var sealed := p + Checksum(h.encoding, p);
    HexRoundTrip(sealed);
    assert sealed[..HEADER_PAYLOAD_SIZE] == p && sealed[HEADER_PAYLOAD_SIZE..] == Checksum(h.encoding, p);
    assert p[1..] == h.flags;
  }

  /** And nothing decodes to a header but its own payload under its own
      checksum: the text of a hex header may differ in letter case only. */
  lemma DecodeSound(e: Encoding, data: seq<byte>)
    requires Decode(e, data).Ok?
    ensures
      var h := Decode(e, data).value;
      h.encoding == e && Unwrap(e, data) == Ok(Payload(h) + Checksum(e, Payload(h)))
  {
    var h := Decode(e, data).value;
    var sealed := Unwrap(e, data).value;
    assert sealed == sealed[..HEADER_PAYLOAD_SIZE] + sealed[HEADER_PAYLOAD_SIZE..];
    assert Payload(h) == sealed[..HEADER_PAYLOAD_SIZE];
  }
}
