/** What comes of any header on the wire, whoever wrote it and however it is escaped: the
    header, or the error that a receiver or sender answers. */
module HeaderOutcomes {
  import opened Primitives
  import opened Zdle
  import opened HeaderCodec
  import opened HeaderReading

  // ---------------------------------------------------------------------
  // The body, byte by byte
  // ---------------------------------------------------------------------

  /** What the reader does with a whole body. */
  function Judgement(r: Reader, e: Encoding, data: seq<byte>): Stepped
  {
    var d := Decode(e, data);
    if d.Ok? then Stepped(FRESH, Got(d.value)) else Malformed(r, d.error)
  }

  lemma UnescHead(pending: bool, wire: seq<byte>)
    requires wire != []
    ensures
      var (p, out) := UnescStep(pending, wire[0]);
      var (q, rest) := Unesc(p, wire[1..]);
      Unesc(pending, wire) == (q, (if out.Some? then [out.value] else []) + rest)
  {
  }

  /** Any wire that unescapes to the rest of a body completes it with its last byte. */
  lemma {:induction false} BodyTaken(r: Reader, wire: seq<byte>)
    requires r.scan.ReadingData?
    requires
      var (pending, data) := Unesc(r.scan.escapePending, wire);
      !pending && data != [] && |r.scan.buf| + |data| == ReadSize(r.scan.encoding)
    ensures
      var s := Judgement(r, r.scan.encoding, r.scan.buf + Unesc(r.scan.escapePending, wire).1);
      ReadChunk(r, wire) == Answer(s.reader, |wire|, s.outcome)
    decreases |wire|
  {
    hide Decode, Unesc, ReadChunk, ReadStep, ReadSize;
    NothingUnescaped(r.scan.escapePending);
    UnescHead(r.scan.escapePending, wire);
    var e, buf := r.scan.encoding, r.scan.buf;
    var (p, out) := UnescStep(r.scan.escapePending, wire[0]);
    var rest := Unesc(p, wire[1..]).1;
    OneStep(r, wire);
    if out.None? {
      var held := r.(scan := r.scan.(escapePending := p));
      Held(r, wire[0]);
      assert [] + rest == rest;
      BodyTaken(held, wire[1..]);
    } else if rest != [] {
      var more := r.(scan := ReadingData(e, buf + [out.value], false));
      Longer(r, wire[0], out.value);
      assert buf + ([out.value] + rest) == (buf + [out.value]) + rest;
      BodyTaken(more, wire[1..]);
    } else {
      Completed(r, wire[0], out.value);
      assert [out.value] + [] == [out.value];
      if wire[1..] != [] {
        SomethingThere(wire[1..]);
      }
      NothingLeft(Judgement(r, e, buf + [out.value]).reader);
    }
  }

  lemma NothingUnescaped(pending: bool)
    ensures Unesc(pending, []) == (pending, [])
  {
  }

  lemma Held(r: Reader, b: byte)
    requires r.scan.ReadingData? && UnescStep(r.scan.escapePending, b).1.None?
    ensures ReadStep(r, b) ==
            Stepped(r.(scan := r.scan.(escapePending := UnescStep(r.scan.escapePending, b).0)), Nothing)
  {
    hide Decode;
  }

  lemma Longer(r: Reader, b: byte, out: byte)
    requires r.scan.ReadingData? && UnescStep(r.scan.escapePending, b).1 == Some(out)
    requires |r.scan.buf| + 1 < ReadSize(r.scan.encoding)
    ensures !UnescStep(r.scan.escapePending, b).0
    ensures ReadStep(r, b) == Stepped(r.(scan := ReadingData(r.scan.encoding, r.scan.buf + [out], false)), Nothing)
  {
    hide Decode;
  }

  lemma Completed(r: Reader, b: byte, out: byte)
    requires r.scan.ReadingData? && UnescStep(r.scan.escapePending, b).1 == Some(out)
    requires |r.scan.buf| + 1 == ReadSize(r.scan.encoding)
    ensures !UnescStep(r.scan.escapePending, b).0
    ensures ReadStep(r, b) == Judgement(r, r.scan.encoding, r.scan.buf + [out])
  {
    hide Decode;
  }

  /** With nothing pending, some wire cannot come to nothing. */
  lemma SomethingThere(wire: seq<byte>)
    requires wire != []
    ensures Unesc(false, wire) != (false, [])
  {
    UnescHead(false, wire);
    if wire[0] == ZDLE {
      if wire[1..] == [] {
        NothingUnescaped(true);
      } else {
        UnescHead(true, wire[1..]);
      }
    }
  }

  // ---------------------------------------------------------------------
  // The whole header
  // ---------------------------------------------------------------------

  /** Any header on the wire, from any seeking state: the start for its encoding, and then
      whatever unescapes to a body of the right length. */
  lemma AnyHeaderTaken(r: Reader, e: Encoding, wire: seq<byte>)
    requires r.scan.Seeking?
    requires !Unesc(false, wire).0 && |Unesc(false, wire).1| == ReadSize(e)
    ensures
      var s := Judgement(r, e, Unesc(false, wire).1);
      ReadChunk(r, Start(e) + wire) == Answer(s.reader, |Start(e)| + |wire|, s.outcome)
  {
    hide ReadChunk, Decode, Unesc, Start;
    var p := r.(scan := ReadingData(e, [], false));
    var data := Unesc(false, wire).1;
    StartRead(r, e);
    assert [] + data == data;
    BodyTaken(p, wire);
    ReadChunkConcat(r, Start(e), wire);
  }

  /** Five bytes and their checksum, in the form the encoding calls for. */
  function Written(e: Encoding, payload: seq<byte>, sum: seq<byte>): (s: seq<byte>)
    requires |payload| == 5 && |sum| == CrcLen(e)
    ensures |s| == ReadSize(e)
  {
    if e == ZHEX then Hex(payload + sum) else payload + sum
  }

  lemma DecodeWritten(e: Encoding, payload: seq<byte>, sum: seq<byte>)
    requires |payload| == 5 && |sum| == CrcLen(e)
    ensures
      var d := Decode(e, Written(e, payload, sum));
      && (sum != Checksum(e, payload) ==> d == Err(if e == ZBIN32 then UnexpectedCrc32 else UnexpectedCrc16))
      && (sum == Checksum(e, payload) && payload[0] >= 20 ==> d == Err(MalformedFrame(payload[0])))
      && (sum == Checksum(e, payload) && payload[0] < 20 ==>
            d.Ok? && d.value.encoding == e && FrameByte(d.value.frame) == payload[0] && d.value.flags == payload[1..])
  {
    hide FrameOf, FrameByte, Checksum;
    var sealed := payload + sum;
    HexRoundTrip(sealed);
    assert sealed[..5] == payload && sealed[5..] == sum;
    FrameRead(payload[0]);
  }

  lemma FrameRead(b: byte)
    ensures b < 20 ==> FrameOf(b).Some? && FrameByte(FrameOf(b).value) == b
    ensures b >= 20 ==> FrameOf(b).None?
  {
  }

  /** What five bytes and a checksum come to, in any encoding and however escaped, out of
      resync mode: a wrong checksum and an unknown frame type are told apart, and anything
      else is the header with that frame code and those flags. */
  lemma HeaderJudged(r: Reader, e: Encoding, payload: seq<byte>, sum: seq<byte>, wire: seq<byte>)
    requires r.scan.Seeking? && !r.resyncing && |payload| == 5 && |sum| == (if e == ZBIN32 then 4 else 2)
    requires Unesc(false, wire) == (false, Written(e, payload, sum))
    ensures
      var a := ReadChunk(r, Start(e) + wire);
      && a.reader == FRESH && a.taken == |Start(e)| + |wire|
      && (sum != Checksum(e, payload) ==> a.outcome == Failed(if e == ZBIN32 then UnexpectedCrc32 else UnexpectedCrc16))
      && (sum == Checksum(e, payload) && payload[0] >= 20 ==> a.outcome == Failed(MalformedFrame(payload[0])))
      && (sum == Checksum(e, payload) && payload[0] < 20 ==>
            && a.outcome.Got? && a.outcome.header.encoding == e
            && FrameByte(a.outcome.header.frame) == payload[0] && a.outcome.header.flags == payload[1..])
  {
    hide ReadChunk, Decode, Unesc, Start, Checksum, Written;
    AnyHeaderTaken(r, e, wire);
    DecodeWritten(e, payload, sum);
  }

  /** In resync mode what is malformed is passed over without a word, and the mode stays;
      a good header ends it. */
  lemma HeaderResynced(r: Reader, e: Encoding, payload: seq<byte>, sum: seq<byte>, wire: seq<byte>)
    requires r.scan.Seeking? && r.resyncing && |payload| == 5 && |sum| == (if e == ZBIN32 then 4 else 2)
    requires Unesc(false, wire) == (false, Written(e, payload, sum))
    ensures
      var a := ReadChunk(r, Start(e) + wire);
      && a.taken == |Start(e)| + |wire|
      && (if sum == Checksum(e, payload) && payload[0] < 20 then
            && a.reader == FRESH && a.outcome.Got? && a.outcome.header.encoding == e
            && FrameByte(a.outcome.header.frame) == payload[0] && a.outcome.header.flags == payload[1..]
          else a.reader == Reader(Seeking(Idle), true) && a.outcome == Nothing)
  {
    hide ReadChunk, Decode, Unesc, Start, Checksum, Written;
    AnyHeaderTaken(r, e, wire);
    DecodeWritten(e, payload, sum);
  }

  /** Hex text with a character that is no digit is a malformed header. */
  lemma NotHex(text: seq<byte>, i: nat)
    requires |text| == 14 && i < 14
    requires !(0x30 <= text[i] <= 0x39 || 0x41 <= text[i] <= 0x46 || 0x61 <= text[i] <= 0x66)
    ensures Decode(ZHEX, text) == Err(MalformedHeader)
  {
    hide UnHex;
    NotHexAt(text, i);
  }

  lemma {:induction false} NotHexAt(text: seq<byte>, i: nat)
    requires |text| % 2 == 0 && i < |text|
    requires !(0x30 <= text[i] <= 0x39 || 0x41 <= text[i] <= 0x46 || 0x61 <= text[i] <= 0x66)
    ensures UnHex(text) == None
    decreases |text|
  {
    if i >= 2 {
      NotHexAt(text[2..], i - 2);
    }
  }

  /** A byte that is no encoding behind a header start is reported, or passed over in
      resync mode. */
  lemma NoEncoding(r: Reader, b: byte)
    requires r.scan.Seeking? && r.scan.zpad != Idle && !(0x41 <= b <= 0x43)
    ensures ReadChunk(r, [0x18, b]) ==
            Answer(Reader(Seeking(Idle), r.resyncing), 2, if r.resyncing then Nothing else Failed(MalformedEncoding(b)))
  {
    var enc := r.(scan := ReadingEncoding);
    assert [0x18, b][1..] == [b] && [b][1..] == [];
    assert ReadStep(r, 0x18) == Stepped(enc, Nothing);
    NothingLeft(Reader(Seeking(Idle), r.resyncing));
    assert ReadStep(enc, b) == Malformed(enc, MalformedEncoding(b));
  }

  /** Bodies of other lengths, which the reader never decodes: what is too long for the
      buffers, and what is too short for a header. */
  lemma OtherLengths(e: Encoding, data: seq<byte>)
    ensures e == ZHEX && |data| % 2 == 1 ==> Decode(e, data) == Err(MalformedHeader)
    ensures e == ZHEX && |data| % 2 == 0 && |data| > 32 ==> Decode(e, data) == Err(UnexpectedEof)
    ensures e == ZHEX && |data| % 2 == 0 && |data| < 14 ==> Decode(e, data) == Err(MalformedHeader)
    ensures e != ZHEX && |data| > 32 ==> Decode(e, data) == Err(OutOfMemory)
    ensures e != ZHEX && |data| < (if e == ZBIN32 then 9 else 7) ==> Decode(e, data) == Err(MalformedHeader)
  {
    hide UnHex, Checksum, FrameOf;
  }

  // ---------------------------------------------------------------------
  // A header with its line ending
  // ---------------------------------------------------------------------

  /** What is written for a header reads back as that header alone. */
  lemma OneHeader(h: Header)
    ensures Decoded(FRESH, EncHeader(h)) == Decoding(FRESH, [Got(h)])
  {
    hide ReadChunk, Decoded, HeaderCore;
    HeaderRead(FRESH, h);
    EndingRead(h);
    ChunkOnStream(FRESH, HeaderCore(h));
    ChunkOnStream(FRESH, Ending(h));
    assert HeaderCore(h)[..|HeaderCore(h)|] == HeaderCore(h) && Ending(h)[..|Ending(h)|] == Ending(h);
    DecodedConcat(FRESH, HeaderCore(h), Ending(h));
    assert [Got(h)] + [] == [Got(h)];
  }

  lemma EndingRead(h: Header)
    ensures ReadChunk(FRESH, Ending(h)) == Answer(FRESH, |Ending(h)|, Nothing)
  {
    Quiet(Ending(h));
  }

  lemma {:induction false} Quiet(s: seq<byte>)
    requires ZPAD !in s
    ensures ReadChunk(FRESH, s) == Answer(FRESH, |s|, Nothing)
    decreases |s|
  {
    if s != [] {
      assert ReadStep(FRESH, s[0]) == Stepped(FRESH, Nothing);
      Quiet(s[1..]);
    }
  }
}
