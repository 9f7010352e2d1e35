/** The incremental header reader: a resumable automaton over wire bytes, and the
    class that runs it over slices of input. */
module HeaderReading {
  import opened Primitives
  import opened Zdle
  import opened Buffers
  import opened HeaderCodec

  // ---------------------------------------------------------------------
  // The automaton
  // ---------------------------------------------------------------------

  datatype ZpadState = Idle | Zpad | ZpadZpad

  datatype Scan =
    | Seeking(zpad: ZpadState)
    | ReadingEncoding
    | ReadingData(encoding: Encoding, buf: seq<byte>, escapePending: bool)

  datatype Reader = Reader(scan: Scan, resyncing: bool) {
    /** A partly read header is always shorter than a whole one. */
    predicate Wf()
    {
      scan.ReadingData? ==> |scan.buf| < ReadSize(scan.encoding)
    }

    /** Back to seeking, without leaving resync mode. */
    function Reset(): Reader
    {
      Reader(Seeking(Idle), resyncing)
    }
  }

  const FRESH: Reader := Reader(Seeking(Idle), false)

  /** What one byte or one call yields: `Ok(None)`, `Ok(Some(header))` or `Err`. */
  datatype Outcome = Nothing | Got(header: Header) | Failed(error: Error)

  datatype Stepped = Stepped(reader: Reader, outcome: Outcome)

  /** The answer of one call: the state it leaves, the bytes it took, the outcome. */
  datatype Answer = Answer(reader: Reader, taken: nat, outcome: Outcome) {
    /** The same answer, seen by a caller that had taken `k` bytes before. */
    function After(k: nat): Answer
    {
      Answer(reader, k + taken, outcome)
    }
  }

  /** The outcomes of a stretch of wire, and the state it leaves. */
  datatype Decoding = Decoding(reader: Reader, outcomes: seq<Outcome>)

  function AdvanceZpad(z: ZpadState, b: byte): (ZpadState, bool)
  {
    match z
    case Idle => (if b == ZPAD then Zpad else Idle, false)
    case _ =>
      if b == ZDLE then (Idle, true)
      else if b == ZPAD then (ZpadZpad, false)
      else (Idle, false)
  }

  /** Malformed framing is skipped in resync mode and reported otherwise. */
  function Malformed(r: Reader, e: Error): Stepped
  {
    Stepped(r.Reset(), if r.resyncing then Nothing else Failed(e))
  }

  function ReadStep(r: Reader, b: byte): (s: Stepped)
    ensures r.Wf() ==> s.reader.Wf()
  {
    match r.scan
    case Seeking(z) =>
      var (z', start) := AdvanceZpad(z, b);
      Stepped(r.(scan := if start then ReadingEncoding else Seeking(z')), Nothing)
    case ReadingEncoding =>
      var e := EncodingOf(b);
      if e.Some? then Stepped(r.(scan := ReadingData(e.value, [], false)), Nothing)
      else Malformed(r, MalformedEncoding(b))
    case ReadingData(e, buf, pending) =>
      var (pending', out) := UnescStep(pending, b);
      var held := r.(scan := ReadingData(e, buf, pending'));
      if out.None? then Stepped(held, Nothing) else CompleteByte(held, out.value)
  }

  /** The automaton's answer to one decoded header byte. */
  function CompleteByte(r: Reader, b: byte): (s: Stepped)
    requires r.scan.ReadingData?
    ensures r.Wf() ==> s.reader.Wf()
  {
    var e, buf' := r.scan.encoding, r.scan.buf + [b];
    if |buf'| < ReadSize(e) then Stepped(r.(scan := r.scan.(buf := buf')), Nothing)
    else
      var d := Decode(e, buf');
      if d.Ok? then Stepped(FRESH, Got(d.value)) else Malformed(r, d.error)
  }

  /** What the wire is blamed for is never the caller's fault. */
  lemma FailureKind(r: Reader, b: byte)
    ensures
      var o := ReadStep(r, b).outcome;
      o.Failed? ==> !Misuse(o.error)
  {
    hide Decode, EncodingOf, UnescStep;
    if r.scan.ReadingData? {
      var out := UnescStep(r.scan.escapePending, b).1;
      if out.Some? {
        DecodeKind(r.scan.encoding, r.scan.buf + [out.value]);
      }
    }
  }

  lemma DecodeKind(e: Encoding, data: seq<byte>)
    ensures Decode(e, data).Err? ==> !Misuse(Decode(e, data).error)
  {
    hide Checksum, UnHex, FrameOf;
  }

  /** One call of the reader on a slice: it stops at the first outcome, or with
      nothing at the end of the slice. */
  function ReadChunk(r: Reader, input: seq<byte>): (s: Answer)
    ensures (r.Wf() ==> s.reader.Wf()) && s.taken <= |input|
    ensures s.outcome.Nothing? ==> s.taken == |input|
    ensures !s.outcome.Nothing? ==> s.taken > 0
    decreases |input|
  {
    if input == [] then Answer(r, 0, Nothing)
    else
      var s := ReadStep(r, input[0]);
      if !s.outcome.Nothing? then Answer(s.reader, 1, s.outcome)
      else ReadChunk(s.reader, input[1..]).After(1)
  }

  /** A slice that yields nothing can be glued to the next one. */
  lemma {:induction false} ReadChunkConcat(r: Reader, a: seq<byte>, b: seq<byte>)
    requires ReadChunk(r, a).outcome.Nothing?
    ensures ReadChunk(r, a + b) == ReadChunk(ReadChunk(r, a).reader, b).After(|a|)
    decreases |a|
  {
    if a == [] {
      assert a + b == b;
    } else {
      assert (a + b)[1..] == a[1..] + b;
      ReadChunkConcat(ReadStep(r, a[0]).reader, a[1..], b);
    }
  }

  /** Bytes after the first outcome are not looked at. */
  lemma {:induction false} ReadChunkPrefix(r: Reader, a: seq<byte>, b: seq<byte>)
    requires !ReadChunk(r, a).outcome.Nothing?
    ensures ReadChunk(r, a + b) == ReadChunk(r, a)
    decreases |a|
  {
    if a != [] {
      assert (a + b)[1..] == a[1..] + b;
      if ReadStep(r, a[0]).outcome.Nothing? {
        ReadChunkPrefix(ReadStep(r, a[0]).reader, a[1..], b);
      }
    }
  }

  /** A call that ends with an outcome needs no more than the bytes it took. */
  lemma {:induction false} ChunkAlone(r: Reader, rest: seq<byte>)
    requires !ReadChunk(r, rest).outcome.Nothing?
    ensures ReadChunk(r, rest[..ReadChunk(r, rest).taken]) == ReadChunk(r, rest)
    decreases |rest|
  {
    hide ReadStep;
    var n := ReadChunk(r, rest).taken;
    var s := ReadStep(r, rest[0]);
    if s.outcome.Nothing? {
      ChunkAlone(s.reader, rest[1..]);
      assert rest[..n][1..] == rest[1..][..n - 1];
    }
  }

  lemma ChunkWf(r: Reader, input: seq<byte>)
    requires r.Wf()
    ensures ReadChunk(r, input).reader.Wf()
  {
  }

  // ---------------------------------------------------------------------
  // The whole stream
  // ---------------------------------------------------------------------

  function Yield(o: Outcome): seq<Outcome>
  {
    if o.Nothing? then [] else [o]
  }

  /** Every outcome met on a stretch of wire, in order. */
  function Decoded(r: Reader, wire: seq<byte>): (s: Decoding)
    ensures r.Wf() ==> s.reader.Wf()
    decreases |wire|
  {
    if wire == [] then Decoding(r, [])
    else
      var s := ReadStep(r, wire[0]);
      var rest := Decoded(s.reader, wire[1..]);
      Decoding(rest.reader, Yield(s.outcome) + rest.outcomes)
  }

  lemma {:induction false} DecodedConcat(r: Reader, a: seq<byte>, b: seq<byte>)
    ensures
      var x := Decoded(r, a);
      var y := Decoded(x.reader, b);
      Decoded(r, a + b) == Decoding(y.reader, x.outcomes + y.outcomes)
    decreases |a|
  {
    hide ReadStep;
    if a == [] {
      assert a + b == b;
      assert [] + Decoded(r, b).outcomes == Decoded(r, b).outcomes;
    } else {
      assert (a + b)[1..] == a[1..] + b;
      var s := ReadStep(r, a[0]);
      DecodedConcat(s.reader, a[1..], b);
      var x := Decoded(s.reader, a[1..]);
      var y := Decoded(x.reader, b).outcomes;
      assert Yield(s.outcome) + (x.outcomes + y) == (Yield(s.outcome) + x.outcomes) + y;
    }
  }

  /** Calling the reader again and again on what is left of a slice. */
  function DrainSlice(r: Reader, input: seq<byte>): (s: Decoding)
    ensures r.Wf() ==> s.reader.Wf()
    decreases |input|
  {
    var a := ReadChunk(r, input);
    if a.outcome.Nothing? then Decoding(a.reader, [])
    else
      var rest := DrainSlice(a.reader, input[a.taken..]);
      Decoding(rest.reader, [a.outcome] + rest.outcomes)
  }

  /** The same over any number of slices, the state carried from one to the next. */
  function DrainSlices(r: Reader, slices: seq<seq<byte>>): (s: Decoding)
    ensures r.Wf() ==> s.reader.Wf()
    decreases |slices|
  {
    if slices == [] then Decoding(r, [])
    else
      var x := DrainSlice(r, slices[0]);
      var y := DrainSlices(x.reader, slices[1..]);
      Decoding(y.reader, x.outcomes + y.outcomes)
  }

  function Join(slices: seq<seq<byte>>): seq<byte>
  {
    if slices == [] then [] else slices[0] + Join(slices[1..])
  }

  /** What one call consumed, seen on the stream. */
  lemma {:induction false} ChunkOnStream(r: Reader, input: seq<byte>)
    ensures
      var a := ReadChunk(r, input);
      Decoded(r, input[..a.taken]) == Decoding(a.reader, Yield(a.outcome))
    decreases |input|
  {
    hide ReadStep;
    if input != [] {
      var n := ReadChunk(r, input).taken;
      var s := ReadStep(r, input[0]);
      assert Yield(s.outcome) + [] == Yield(s.outcome);
      if !s.outcome.Nothing? {
        assert input[..1][1..] == [];
      } else {
        ChunkOnStream(s.reader, input[1..]);
        assert input[..n][1..] == input[1..][..n - 1];
        var rest := Decoded(s.reader, input[1..][..n - 1]).outcomes;
        assert [] + rest == rest;
      }
    }
  }

  lemma {:induction false} DrainSliceIsDecoded(r: Reader, input: seq<byte>)
    ensures DrainSlice(r, input) == Decoded(r, input)
    decreases |input|
  {
    hide ReadChunk, Decoded;
    var a := ReadChunk(r, input);
    ChunkOnStream(r, input);
    if a.outcome.Nothing? {
      assert input[..a.taken] == input;
    } else {
      DrainSliceIsDecoded(a.reader, input[a.taken..]);
      DecodedConcat(r, input[..a.taken], input[a.taken..]);
      assert input == input[..a.taken] + input[a.taken..];
    }
  }

  /** However the wire is cut into slices, the reader meets the same outcomes. */
  lemma {:induction false} SlicingIrrelevant(r: Reader, slices: seq<seq<byte>>)
    ensures DrainSlices(r, slices) == Decoded(r, Join(slices))
    decreases |slices|
  {
    if slices != [] {
      DrainSliceIsDecoded(r, slices[0]);
      SlicingIrrelevant(Decoded(r, slices[0]).reader, slices[1..]);
      DecodedConcat(r, slices[0], Join(slices[1..]));
    }
  }

  // ---------------------------------------------------------------------
  // Reading back what was written
  // ---------------------------------------------------------------------

  /** One escaped byte is one decoded byte. */
  lemma EscapedByteRead(r: Reader, b: byte)
    requires r.scan.ReadingData? && !r.scan.escapePending
    ensures
      var s := CompleteByte(r, b);
      ReadChunk(r, EscByte(b)) == Answer(s.reader, |EscByte(b)|, s.outcome)
  {
    hide Decode;
    CoverSafe(b);
    var s := CompleteByte(r, b);
    if Special(b) {
      var p := r.(scan := r.scan.(escapePending := true));
      assert EscByte(b)[1..] == [Cover(b)] && [Cover(b)][1..] == [];
      assert ReadStep(r, ZDLE) == Stepped(p, Nothing);
      assert p.(scan := p.scan.(escapePending := false)) == r;
      assert ReadStep(p, Cover(b)) == s;
      assert ReadChunk(p, [Cover(b)]) == Answer(s.reader, 1, s.outcome);
    } else {
      assert EscByte(b)[1..] == [];
      assert r.(scan := r.scan.(escapePending := false)) == r;
      assert ReadStep(r, b) == s;
    }
  }

  lemma {:induction false} BodyRead(r: Reader, data: seq<byte>)
    requires r.scan.ReadingData? && !r.scan.escapePending
    requires data != [] && |r.scan.buf| + |data| == ReadSize(r.scan.encoding)
    requires Decode(r.scan.encoding, r.scan.buf + data).Ok?
    ensures ReadChunk(r, Esc(data)) ==
            Answer(FRESH, |Esc(data)|, Got(Decode(r.scan.encoding, r.scan.buf + data).value))
    decreases |data|
  {
    hide Decode, ReadChunk, ReadStep, EscByte;
    var a, b := EscByte(data[0]), Esc(data[1..]);
    EscapedByteRead(r, data[0]);
    if |data| == 1 {
      assert data == [data[0]] && Esc(data) == a + [] && a + [] == a;
    } else {
      var r' := r.(scan := r.scan.(buf := r.scan.buf + [data[0]]));
      assert CompleteByte(r, data[0]) == Stepped(r', Nothing);
      assert r'.scan.buf + data[1..] == r.scan.buf + data;
      BodyRead(r', data[1..]);
      ReadChunkConcat(r, a, b);
    }
  }

  lemma EncodingRead(r: Reader, e: Encoding)
    requires r.scan.Seeking? && r.scan.zpad != Idle
    ensures ReadChunk(r, [ZDLE, EncodingByte(e)]) == Answer(r.(scan := ReadingData(e, [], false)), 2, Nothing)
  {
    var done := r.(scan := ReadingData(e, [], false));
    var enc, eb := r.(scan := ReadingEncoding), EncodingByte(e);
    assert [eb][1..] == [] && [ZDLE, eb][1..] == [eb];
    assert ReadStep(enc, eb) == Stepped(done, Nothing);
    assert ReadChunk(enc, [eb]) == Answer(done, 1, Nothing);
    assert ReadStep(r, ZDLE) == Stepped(enc, Nothing);
  }

  lemma StartRead(r: Reader, e: Encoding)
    requires r.scan.Seeking?
    ensures ReadChunk(r, Start(e)) == Answer(r.(scan := ReadingData(e, [], false)), |Start(e)|, Nothing)
  {
    hide ReadChunk, ReadStep;
    var tail := [ZDLE, EncodingByte(e)];
    var p := r.(scan := Seeking(AdvanceZpad(r.scan.zpad, ZPAD).0));
    ZpadRead(r, tail);
    EncodingRead(p, e);
    if e == ZHEX {
      ZpadRead(p, tail);
      EncodingRead(p.(scan := Seeking(AdvanceZpad(p.scan.zpad, ZPAD).0)), e);
      ZpadRead(r, [ZPAD] + tail);
      assert [ZPAD] + ([ZPAD] + tail) == Start(e);
    } else {
      assert [ZPAD] + tail == Start(e);
    }
  }

  lemma ZpadRead(r: Reader, rest: seq<byte>)
    requires r.scan.Seeking?
    ensures
      var z := AdvanceZpad(r.scan.zpad, ZPAD).0;
      z != Idle && ReadChunk(r, [ZPAD] + rest) == ReadChunk(r.(scan := Seeking(z)), rest).After(1)
  {
    assert ([ZPAD] + rest)[1..] == rest;
  }

  /** A written header is read back from any seeking state, and the reader stops
      on its last byte, out of resync mode. */
  lemma HeaderRead(r: Reader, h: Header)
    requires r.scan.Seeking?
    ensures ReadChunk(r, HeaderCore(h)) == Answer(FRESH, |HeaderCore(h)|, Got(h))
  {
    hide ReadChunk, Decode, Start, Body;
    StartRead(r, h.encoding);
    DecodeBody(h);
    var p := r.(scan := ReadingData(h.encoding, [], false));
    assert [] + Body(h) == Body(h);
    BodyRead(p, Body(h));
    ReadChunkConcat(r, Start(h.encoding), Esc(Body(h)));
  }

  // ---------------------------------------------------------------------
  // Header streams (section 7.3 of the ZMODEM specification)
  // ---------------------------------------------------------------------

  /** Bytes that contain no header start. */
  predicate Gap(s: seq<byte>)
  {
    forall i :: 0 <= i < |s| - 1 && s[i] == ZPAD ==> s[i + 1] != ZDLE
  }

  /** A gap keeps the reader seeking; only the header start tail is remembered. */
  lemma {:induction false} GapSkipped(r: Reader, s: seq<byte>)
    requires r.scan.Seeking? && Gap(s)
    requires r.scan.zpad != Idle && s != [] ==> s[0] != ZDLE
    ensures ReadChunk(r, s).outcome.Nothing?
    ensures ReadChunk(r, s).reader.scan.Seeking? && ReadChunk(r, s).reader.resyncing == r.resyncing
    decreases |s|
  {
    if s != [] {
      var r' := ReadStep(r, s[0]).reader;
      var t := s[1..];
      forall i | 0 <= i < |t| - 1 && t[i] == ZPAD
        ensures t[i + 1] != ZDLE
      {
        assert s[i + 1] == t[i];
      }
      GapSkipped(r', t);
    }
  }

  /** A line of headers, each preceded by a gap. */
  datatype Spaced = Spaced(gap: seq<byte>, header: Header)

  function StreamOf(items: seq<Spaced>): seq<byte>
  {
    if items == [] then [] else items[0].gap + EncHeader(items[0].header) + StreamOf(items[1..])
  }

  function Headers(items: seq<Spaced>): seq<Outcome>
  {
    if items == [] then [] else [Got(items[0].header)] + Headers(items[1..])
  }

  lemma ItemDecoded(item: Spaced)
    requires Gap(item.gap)
    ensures Decoded(FRESH, item.gap + EncHeader(item.header)) == Decoding(FRESH, [Got(item.header)])
  {
    hide ReadChunk, HeaderCore, Decoded, Gap;
    var g, h := item.gap, item.header;
    GapSkipped(FRESH, g);
    HeaderRead(ReadChunk(FRESH, g).reader, h);
    ReadChunkConcat(FRESH, g, HeaderCore(h));
    var upTo := g + HeaderCore(h);
    ChunkOnStream(FRESH, upTo);
    assert upTo[..|upTo|] == upTo;
    QuietSkipped(Ending(h));
    DecodedConcat(FRESH, upTo, Ending(h));
    assert g + EncHeader(h) == upTo + Ending(h);
    assert Yield(Got(h)) + [] == [Got(h)];
  }

  /** Bytes without a ZPAD leave a fresh reader as it was. */
  lemma {:induction false} QuietSkipped(s: seq<byte>)
    requires ZPAD !in s
    ensures Decoded(FRESH, s) == Decoding(FRESH, [])
    decreases |s|
  {
    if s != [] {
      assert ReadStep(FRESH, s[0]) == Stepped(FRESH, Nothing);
      QuietSkipped(s[1..]);
      assert Yield(Nothing) + [] == [];
    }
  }

  /** Any list of headers in any mix of encodings, separated by gaps, decodes to
      exactly that list. */
  lemma {:induction false} StreamDecoded(items: seq<Spaced>)
    requires forall i :: 0 <= i < |items| ==> Gap(items[i].gap)
    ensures Decoded(FRESH, StreamOf(items)) == Decoding(FRESH, Headers(items))
    decreases |items|
  {
    if items != [] {
      ItemDecoded(items[0]);
      StreamDecoded(items[1..]);
      DecodedConcat(FRESH, items[0].gap + EncHeader(items[0].header), StreamOf(items[1..]));
    }
  }

  /** And it does so under any slicing of the stream. */
  lemma HeaderStreamRoundTrip(items: seq<Spaced>, slices: seq<seq<byte>>)
    requires forall i :: 0 <= i < |items| ==> Gap(items[i].gap)
    requires Join(slices) == StreamOf(items)
    ensures DrainSlices(FRESH, slices) == Decoding(FRESH, Headers(items))
  {
    SlicingIrrelevant(FRESH, slices);
    StreamDecoded(items);
  }

  // ---------------------------------------------------------------------
  // Resynchronisation
  // ---------------------------------------------------------------------

  /** While resyncing, wire bytes in which no ZDLE introduces an encoding are
      skipped without a word, wherever they start. */
  lemma {:induction false} StraySkipped(r: Reader, s: seq<byte>)
    requires r.scan.Seeking? && r.resyncing && NoFakeHeader(s)
    ensures ReadChunk(r, s).outcome.Nothing?
    ensures ReadChunk(r, s).reader.scan.Seeking? && ReadChunk(r, s).reader.resyncing
    decreases |s|
  {
    if s != [] {
      var r' := ReadStep(r, s[0]).reader;
      NoFakeHeaderSuffix(s, 1);
      if r'.scan.Seeking? {
        StraySkipped(r', s[1..]);
      } else {
        assert s[0] == ZDLE;
        NoFakeHeaderSuffix(s, 2);
        var r'' := ReadStep(r', s[1]).reader;
        assert r'' == r.Reset();
        StraySkipped(r'', s[2..]);
        assert s[1..][1..] == s[2..] && s[1..][0] == s[1];
      }
    }
  }

  /** Resync is sound: the stray bytes are skipped exactly, and the next header
      is returned exactly. */
  lemma ResyncFindsHeader(r: Reader, stray: seq<byte>, h: Header)
    requires r.scan.Seeking? && r.resyncing && NoFakeHeader(stray)
    ensures ReadChunk(r, stray + HeaderCore(h)) == Answer(FRESH, |stray| + |HeaderCore(h)|, Got(h))
  {
    hide ReadChunk, HeaderCore, NoFakeHeader;
    StraySkipped(r, stray);
    HeaderRead(ReadChunk(r, stray).reader, h);
    ReadChunkConcat(r, stray, HeaderCore(h));
  }

  /** Without resync the same bytes are skipped only if no ZPAD stands right before
      a ZDLE; otherwise they are reported as a malformed header. */
  lemma {:induction false} StrayUnarmed(r: Reader, s: seq<byte>)
    requires r.scan.Seeking? && !r.resyncing && NoFakeHeader(s)
    ensures ReadChunk(r, s).outcome.Nothing? <==> Gap(s) && !(r.scan.zpad != Idle && s != [] && s[0] == ZDLE)
    ensures !ReadChunk(r, s).outcome.Nothing? ==>
              ReadChunk(r, s).outcome.Failed? && ReadChunk(r, s).outcome.error.MalformedEncoding?
    decreases |s|
  {
    if s != [] {
      var r' := ReadStep(r, s[0]).reader;
      NoFakeHeaderSuffix(s, 1);
      if r'.scan.Seeking? {
        StrayUnarmed(r', s[1..]);
        GapCons(s);
      } else {
        assert s[0] == ZDLE;
        assert s[1..][0] == s[1];
      }
    }
  }

  lemma GapCons(s: seq<byte>)
    requires s != []
    ensures Gap(s) <==> Gap(s[1..]) && !(s[0] == ZPAD && |s| > 1 && s[1] == ZDLE)
  {
    var t := s[1..];
    if Gap(s) {
      forall i | 0 <= i < |t| - 1 && t[i] == ZPAD
        ensures t[i + 1] != ZDLE
      {
        assert s[i + 1] == t[i];
      }
    }
    if Gap(t) {
      forall i | 1 <= i < |s| - 1 && s[i] == ZPAD
        ensures s[i + 1] != ZDLE
      {
        assert t[i - 1] == s[i];
      }
    }
  }

  // ---------------------------------------------------------------------
  // The reader as an object
  // ---------------------------------------------------------------------

  /** A cursor over a slice of wire input. */
  class SliceReader {
    const buf: seq<byte>
    var pos: nat

    ghost predicate Valid()
      reads this
    {
      pos <= |buf|
    }

    ghost function Rest(): seq<byte>
      requires Valid()
      reads this
    {
      buf[pos..]
    }

    constructor (buf: seq<byte>)
      ensures Valid() && pos == 0 && this.buf == buf && Rest() == buf
    {
      this.buf := buf;
      pos := 0;
    }

    method ReadByte() returns (b: Option<byte>)
      requires Valid()
      modifies this
      ensures Valid()
      ensures old(Rest()) == [] ==> b == None && pos == old(pos)
      ensures old(Rest()) != [] ==> b == Some(old(Rest())[0]) && pos == old(pos) + 1
      ensures old(Rest()) != [] ==> Rest() == old(Rest())[1..]
      ensures b == (if old(pos) < |buf| then Some(buf[old(pos)]) else None)
      ensures pos == old(pos) + if b.Some? then 1 else 0
    {
      if pos < |buf| {
        b := Some(buf[pos]);
        pos := pos + 1;
      } else {
        b := None;
      }
    }
  }

  /** What the stateful reader makes of the input: the flag it leaves, how many
      bytes it took, the decoded byte. A ZDLE and its follower go together. */
  function UnescRead(pending: bool, rest: seq<byte>): (r: (bool, nat, Option<byte>))
    ensures r.1 <= |rest| && (rest != [] ==> r.1 > 0)
    ensures r.2.None? ==> r.1 == |rest|
  {
    if rest == [] then (pending, 0, None)
    else
      var (p, out) := UnescStep(pending, rest[0]);
      if out.Some? then (p, 1, out)
      else if |rest| == 1 then (p, 1, None)
      else (false, 2, Some(Uncover(rest[1])))
  }

  method ReadByteUnescaped(port: SliceReader, pending: bool) returns (pending': bool, out: Option<byte>)
    requires port.Valid()
    modifies port
    ensures port.Valid()
    ensures (pending', port.pos - old(port.pos), out) == UnescRead(pending, old(port.Rest()))
    ensures port.Rest() == old(port.Rest())[port.pos - old(port.pos)..]
  {
    pending' := pending;
    if pending {
      var b := port.ReadByte();
      if b.None? {
        return pending', None;
      }
      UnescapeTableMeaning(b.value);
      return false, Some(UnescapeTable(b.value));
    }
    var b := port.ReadByte();
    if b.None? {
      return pending', None;
    }
    if b.value == ZDLE {
      var next := port.ReadByte();
      if next.None? {
        return true, None;
      }
      UnescapeTableMeaning(next.value);
      return false, Some(UnescapeTable(next.value));
    }
    return pending', b;
  }

  datatype ReadState = SeekingZpad | ReadEncoding | ReadData

  class HeaderReader {
    var state: ReadState
    var zpadState: ZpadState
    const buf: Buffer
    var encoding: Option<Encoding>
    var expectedLen: nat
    var escapePending: bool
    var resyncing: bool

    ghost function Repr(): set<object>
    {
      {this, buf, buf.bytes}
    }

    ghost predicate Valid()
      reads Repr()
    {
      && buf.Valid() && buf.capacity == HEADER_SIZE
      && (state != SeekingZpad ==> zpadState == Idle)
      && (state == ReadData ==>
            encoding.Some? && expectedLen == ReadSize(encoding.value) && buf.len < expectedLen)
    }

    ghost function View(): (r: Reader)
      requires Valid()
      reads Repr()
      ensures r.Wf()
    {
      Reader(
        match state
        case SeekingZpad => Seeking(zpadState)
        case ReadEncoding => ReadingEncoding
        case ReadData => ReadingData(encoding.value, buf.Contents(), escapePending),
        resyncing)
    }

    ghost predicate Holds(r: Reader)
      reads this, buf, buf.bytes
    {
      Valid() && View() == r
    }

    constructor ()
      ensures Valid() && fresh(buf) && fresh(buf.bytes) && Holds(FRESH)
    {
      state := SeekingZpad;
      zpadState := Idle;
      buf := new Buffer(HEADER_SIZE);
      encoding := None;
      expectedLen := 0;
      escapePending := false;
      resyncing := false;
    }

    method EnterResync()
      requires Valid()
      modifies this
      ensures Valid() && View() == old(View()).(resyncing := true)
    {
      resyncing := true;
    }

    method Reset()
      requires buf.Valid() && buf.capacity == HEADER_SIZE
      modifies this, buf
      ensures Valid() && View() == Reader(Seeking(Idle), old(resyncing))
    {
      state := SeekingZpad;
      zpadState := Idle;
      encoding := None;
      expectedLen := 0;
      escapePending := false;
      buf.Clear();
    }

    method AdvanceZpadState(b: byte) returns (start: bool)
      requires Valid() && state == SeekingZpad
      modifies this`zpadState
      ensures Valid() && (zpadState, start) == AdvanceZpad(old(zpadState), b)
    {
      match zpadState {
        case Idle =>
          if b == ZPAD {
            zpadState := Zpad;
          }
        case _ =>
          if b == ZDLE {
            zpadState := Idle;
            return true;
          }
          if b == ZPAD {
            zpadState := ZpadZpad;
          } else {
            zpadState := Idle;
          }
      }
      return false;
    }

    method TakeZpad(b: byte)
      requires Valid() && state == SeekingZpad
      modifies Repr()
      ensures Valid() && Stepped(View(), Nothing) == ReadStep(old(View()), b)
    {
      var start := AdvanceZpadState(b);
      if start {
        state := ReadEncoding;
      }
    }

    /** The encoding byte is in. */
    method TakeEncoding(b: byte) returns (out: Outcome)
      requires Valid() && state == ReadEncoding
      modifies Repr()
      ensures Valid() && Stepped(View(), out) == ReadStep(old(View()), b)
    {
      var e := EncodingOf(b);
      if e.None? {
        Reset();
        if resyncing {
          return Nothing;
        }
        return Failed(MalformedEncoding(b));
      }
      expectedLen := ReadSize(e.value);
      encoding := e;
      escapePending := false;
      buf.Clear();
      state := ReadData;
      return Nothing;
    }

    /** A decoded payload byte is in; the last one completes the header. */
    method TakeData(b: byte) returns (out: Outcome)
      requires Valid() && state == ReadData && !escapePending
      modifies Repr()
      ensures Valid() && Stepped(View(), out) == CompleteByte(old(View()), b)
    {
      ghost var view := View();
      var ok := buf.Push(b);
      if buf.len < expectedLen {
        return Nothing;
      }
      var header := Decode(encoding.value, buf.bytes[..buf.len]);
      assert header == Decode(view.scan.encoding, view.scan.buf + [b]);
      if header.Err? {
        Reset();
        if resyncing {
          return Nothing;
        }
        return Failed(header.error);
      }
      resyncing := false;
      Reset();
      return Got(header.value);
    }

    /** Reads until a header, an error, or the end of the slice. The branch of
        the source for a missing encoding is not here: `Valid` excludes it. */
    method Read(port: SliceReader) returns (out: Outcome)
      requires Valid() && port.Valid() && port !in Repr()
      modifies Repr(), port
      ensures Valid() && port.Valid()
      ensures old(port.pos) <= port.pos
      ensures Answer(View(), port.pos - old(port.pos), out) == ReadChunk(old(View()), old(port.Rest()))
    {
      hide ReadChunk;
      ghost var from := port.pos;
      ghost var whole := ReadChunk(View(), port.Rest());
      while true
        invariant Valid() && port.Valid() && from <= port.pos
        invariant whole == ReadChunk(View(), port.Rest()).After(port.pos - from)
        decreases |port.buf| - port.pos
      {
        ghost var pos, before := port.pos, ReadChunk(View(), port.Rest());
        out := ReadSome(port);
        ghost var after := ReadChunk(View(), port.Rest());
        if !out.Nothing? {
          assert before == Answer(View(), port.pos - pos, out);
          return;
        }
        assert before == after.After(port.pos - pos);
        if port.pos == |port.buf| {
          NothingLeft(View());
          return;
        }
      }
    }

    /** One turn of the reading loop: a byte, or a ZDLE and its follower. */
    method ReadSome(port: SliceReader) returns (out: Outcome)
      requires Valid() && port.Valid() && port !in Repr()
      modifies Repr(), port
      ensures Valid() && port.Valid() && old(port.pos) <= port.pos
      ensures old(port.Rest()) != [] ==> port.pos > old(port.pos)
      ensures Continues(ReadChunk(old(View()), old(port.Rest())), View(), port.pos - old(port.pos), out, port.Rest())
    {
      hide ReadChunk, Continues;
      if state == ReadData {
        out := ReadDataSome(port);
      } else {
        out := ReadFramingByte(port);
      }
    }

    method ReadDataSome(port: SliceReader) returns (out: Outcome)
      requires Valid() && port.Valid() && port !in Repr() && state == ReadData
      modifies Repr(), port
      ensures Valid() && port.Valid() && old(port.pos) <= port.pos
      ensures old(port.Rest()) != [] ==> port.pos > old(port.pos)
      ensures Continues(ReadChunk(old(View()), old(port.Rest())), View(), port.pos - old(port.pos), out, port.Rest())
    {
      hide ReadChunk, ReadStep, CompleteByte;
      ghost var view, rest := View(), port.Rest();
      UnescOnReader(view, rest);
      var pending, b := ReadByteUnescaped(port, escapePending);
      escapePending := pending;
      if b.None? {
        NothingLeft(View());
        return Nothing;
      }
      out := TakeData(b.value);
    }

    method ReadFramingByte(port: SliceReader) returns (out: Outcome)
      requires Valid() && port.Valid() && port !in Repr() && state != ReadData
      modifies Repr(), port
      ensures Valid() && port.Valid() && old(port.pos) <= port.pos
      ensures old(port.Rest()) != [] ==> port.pos > old(port.pos)
      ensures Continues(ReadChunk(old(View()), old(port.Rest())), View(), port.pos - old(port.pos), out, port.Rest())
    {
      hide ReadChunk, ReadStep, CompleteByte;
      ghost var view, rest := View(), port.Rest();
      var b := port.ReadByte();
      if b.None? {
        NothingLeft(View());
        return Nothing;
      }
      OneStep(view, rest);
      if state == SeekingZpad {
        TakeZpad(b.value);
        out := Nothing;
      } else {
        out := TakeEncoding(b.value);
      }
    }
  }

  /** How the answer `whole` of a call goes on after `n` bytes of it: the reader
      stands at `r` with `rest` to come if nothing came out yet. */
  ghost predicate Continues(whole: Answer, r: Reader, n: int, out: Outcome, rest: seq<byte>)
  {
    if out.Nothing? then n >= 0 && whole == ReadChunk(r, rest).After(n) else n >= 0 && whole == Answer(r, n, out)
  }

  lemma NothingLeft(r: Reader)
    ensures ReadChunk(r, []) == Answer(r, 0, Nothing)
  {
  }

  lemma OneStep(r: Reader, rest: seq<byte>)
    requires rest != []
    ensures
      var s := ReadStep(r, rest[0]);
      if s.outcome.Nothing? then ReadChunk(r, rest) == ReadChunk(s.reader, rest[1..]).After(1)
      else ReadChunk(r, rest) == Answer(s.reader, 1, s.outcome)
  {
    hide ReadStep;
  }

  /** Taking a byte through the unescaper and completing with it is one or two
      steps of the automaton. */
  ghost predicate UnescAgrees(r: Reader, rest: seq<byte>, pending: bool, n: nat, out: Option<byte>)
    requires r.scan.ReadingData? && n <= |rest|
  {
    var held := r.(scan := r.scan.(escapePending := pending));
    if out.None? then ReadChunk(r, rest) == Answer(held, |rest|, Nothing)
    else
      var s := CompleteByte(held, out.value);
      if s.outcome.Nothing? then ReadChunk(r, rest) == ReadChunk(s.reader, rest[n..]).After(n)
      else ReadChunk(r, rest) == Answer(s.reader, n, s.outcome)
  }

  lemma UnescOnReader(r: Reader, rest: seq<byte>)
    requires r.scan.ReadingData?
    ensures
      var (pending, n, out) := UnescRead(r.scan.escapePending, rest);
      UnescAgrees(r, rest, pending, n, out)
  {
    hide ReadChunk, ReadStep, CompleteByte;
    if rest == [] {
      NothingLeft(r);
      assert r.(scan := r.scan.(escapePending := r.scan.escapePending)) == r;
    } else if r.scan.escapePending || rest[0] != ZDLE {
      var b := if r.scan.escapePending then Uncover(rest[0]) else rest[0];
      OneStep(r, rest);
      StepCompletes(r, rest[0], b);
    } else {
      UnescPair(r, rest);
    }
  }

  lemma UnescPair(r: Reader, rest: seq<byte>)
    requires r.scan.ReadingData? && !r.scan.escapePending
    requires rest != [] && rest[0] == ZDLE
    ensures if |rest| == 1 then UnescAgrees(r, rest, true, 1, None)
            else UnescAgrees(r, rest, false, 2, Some(Uncover(rest[1])))
  {
    hide ReadChunk, ReadStep, CompleteByte;
    var p := r.(scan := r.scan.(escapePending := true));
    OneStep(r, rest);
    StepHolds(r);
    if |rest| == 1 {
      assert rest[1..] == [];
      NothingLeft(p);
    } else {
      OneStep(p, rest[1..]);
      assert rest[1..][0] == rest[1] && rest[1..][1..] == rest[2..];
      StepCompletes(p, rest[1], Uncover(rest[1]));
      assert p.(scan := p.scan.(escapePending := false)) == r;
    }
  }

  lemma StepHolds(r: Reader)
    requires r.scan.ReadingData? && !r.scan.escapePending
    ensures ReadStep(r, ZDLE) == Stepped(r.(scan := r.scan.(escapePending := true)), Nothing)
  {
  }

  lemma StepCompletes(r: Reader, wire: byte, b: byte)
    requires r.scan.ReadingData?
    requires UnescStep(r.scan.escapePending, wire) == (false, Some(b))
    ensures ReadStep(r, wire) == CompleteByte(r.(scan := r.scan.(escapePending := false)), b)
  {
    hide Decode;
  }
}
