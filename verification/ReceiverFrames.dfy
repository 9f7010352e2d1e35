/** Frames on the receiver's wire: feeding the bytes of a header or of a subpacket,
    in any chunks, is the same as one step of the receiver on that frame. */
module ReceiverFrames {
  import opened Primitives
  import opened Zdle
  import opened HeaderCodec
  import opened HeaderReading
  import opened Subpackets
  import opened ReceiverSpec

  function FedOf(p: Reply): Fed
  {
    match p
    case Done(r) => Fed.Fed(r)
    case Refused(r, e) => Broken(r, e)
  }

  lemma FeedOne(r: RxState, b: byte)
    requires r.CanRead()
    ensures Feed(r, [b]) == FedOf(TakeByte(r, b))
  {
    hide TakeByte;
    assert [b][1..] == [];
  }

  lemma FeedTwo(r: RxState, a: byte, b: byte)
    requires r.CanRead() && TakeByte(r, a).Done? && TakeByte(r, a).rx.CanRead()
    ensures Feed(r, [a, b]) == FedOf(TakeByte(TakeByte(r, a).rx, b))
  {
    hide TakeByte, RxState.CanRead;
    FeedOne(TakeByte(r, a).rx, b);
    assert [a, b][1..] == [b];
  }

  // ---------------------------------------------------------------------
  // Headers
  // ---------------------------------------------------------------------

  /** Bytes that only move the reader. */
  lemma {:induction false} ReaderFed(r: RxState, wire: seq<byte>)
    requires r.CanRead() && !r.InSubpacket()
    requires ReadChunk(r.reader, wire).outcome.Nothing?
    ensures Feed(r, wire) == Fed.Fed(r.(reader := ReadChunk(r.reader, wire).reader))
    decreases |wire|
  {
    hide ReadStep;
    if wire == [] {
      assert r.(reader := r.reader) == r;
    } else {
      var s := ReadStep(r.reader, wire[0]);
      var r' := r.(reader := s.reader);
      assert TakeByte(r, wire[0]) == Done(r');
      ReaderFed(r', wire[1..]);
    }
  }

  lemma {:induction false} OutcomeFed(r: RxState, wire: seq<byte>)
    requires r.CanRead() && !r.InSubpacket() && wire != []
    requires !ReadChunk(r.reader, wire).outcome.Nothing? && ReadChunk(r.reader, wire).taken == |wire|
    ensures Feed(r, wire) ==
            FedOf(OnOutcome(r.(reader := ReadChunk(r.reader, wire).reader), ReadChunk(r.reader, wire).outcome))
    decreases |wire|
  {
    hide ReadStep, OnOutcome;
    var s := ReadStep(r.reader, wire[0]);
    var r' := r.(reader := s.reader);
    assert TakeByte(r, wire[0]) == OnOutcome(r', s.outcome);
    if s.outcome.Nothing? {
      assert OnOutcome(r', s.outcome) == Done(r') by {
        NothingHappens(r');
      }
      assert wire[1..] != [];
      OutcomeFed(r', wire[1..]);
      assert r'.(reader := ReadChunk(r'.reader, wire[1..]).reader) == r.(reader := ReadChunk(r.reader, wire).reader);
    } else {
      assert wire[1..] == [];
    }
  }

  lemma NothingHappens(r: RxState)
    ensures OnOutcome(r, Nothing) == Done(r)
  {
  }

  /** The bytes of a header, wherever the reader was seeking, are that header. */
  lemma HeaderFed(r: RxState, h: Header)
    requires r.CanRead() && !r.InSubpacket() && r.reader.scan.Seeking?
    ensures Feed(r, HeaderCore(h)) == FedOf(HandleHeader(r.(reader := FRESH), h))
  {
    hide ReadChunk, HeaderCore, HandleHeader, Feed;
    HeaderSize(h);
    HeaderRead(r.reader, h);
    OutcomeFed(r, HeaderCore(h));
  }

  /** In resync, what is left of a subpacket run is skipped. */
  lemma StrayFed(r: RxState, wire: seq<byte>)
    requires r.CanRead() && !r.InSubpacket() && r.reader.scan.Seeking? && r.reader.resyncing
    requires NoFakeHeader(wire)
    ensures
      var after := r.(reader := ReadChunk(r.reader, wire).reader);
      && Feed(r, wire) == Fed.Fed(after)
      && after.reader.scan.Seeking? && after.reader.resyncing
  {
    hide ReadChunk, Feed, NoFakeHeader;
    StraySkipped(r.reader, wire);
    ReaderFed(r, wire);
  }

  // ---------------------------------------------------------------------
  // Subpackets
  // ---------------------------------------------------------------------

  /** Reading data, with nothing pending and room to spare. */
  predicate Reads(r: RxState)
  {
    && r.CanRead() && r.InSubpacket() && r.sub.Reading? && !r.escapePending
    && r.crc == CrcAfter(r.encoding, r.buf)
  }

  /** The state with more data staged. */
  function Staged(r: RxState, data: seq<byte>): RxState
  {
    r.(buf := r.buf + data, crc := CrcAfter(r.encoding, r.buf + data))
  }

  lemma DataByteFed(r: RxState, b: byte)
    requires Reads(r) && |r.buf| < SUBPACKET_MAX_SIZE
    ensures Feed(r, EscByte(b)) == Fed.Fed(Staged(r, [b])) && Reads(Staged(r, [b]))
  {
    hide CrcAfter, CrcState.Updated;
    CrcAfterSnoc(r.encoding, r.buf, b);
    CoverSafe(b);
    if Special(b) {
      var p := r.(escapePending := true);
      assert TakeByte(r, ZDLE) == Done(p);
      assert p.(escapePending := false) == r;
      assert TakeByte(p, Cover(b)) == TakeData(r, b);
      FeedTwo(r, ZDLE, Cover(b));
    } else {
      assert TakeByte(r, b) == TakeData(r, b);
      FeedOne(r, b);
    }
  }

  lemma {:induction false} DataFed(r: RxState, data: seq<byte>)
    requires Reads(r) && |r.buf| + |data| <= SUBPACKET_MAX_SIZE
    ensures Feed(r, Esc(data)) == Fed.Fed(Staged(r, data)) && Reads(Staged(r, data))
    decreases |data|
  {
    hide Feed, Reads, CrcAfter, EscByte;
    if data == [] {
      FeedNothing(r);
      StagedNothing(r);
    } else {
      var t := Staged(r, [data[0]]);
      DataByteFed(r, data[0]);
      DataFed(t, data[1..]);
      FeedConcat(r, EscByte(data[0]), Esc(data[1..]));
      assert (r.buf + [data[0]]) + data[1..] == r.buf + data;
    }
  }

  lemma FeedNothing(r: RxState)
    ensures Feed(r, []) == Fed.Fed(r)
  {
  }

  lemma StagedNothing(r: RxState)
    requires Reads(r)
    ensures Staged(r, []) == r
  {
    assert r.buf + [] == r.buf;
  }

  /** At the trailer, with nothing of it read yet. */
  function AtTrailer(r: RxState, k: SubpacketType): RxState
  {
    r.(sub := Trailer(k), crc := CrcAfter(r.encoding, r.buf + [KindByte(k)]))
  }

  lemma MarkFed(r: RxState, k: SubpacketType)
    requires Reads(r)
    ensures Feed(r, Mark(k)) == Fed.Fed(AtTrailer(r, k))
  {
    hide CrcAfter, CrcState.Updated;
    CrcAfterSnoc(r.encoding, r.buf, KindByte(k));
    KindRoundTrip(k);
    var p := r.(escapePending := true);
    assert TakeByte(r, ZDLE) == Done(p);
    assert p.(escapePending := false) == r;
    assert TakeByte(p, KindByte(k)) == Done(AtTrailer(r, k));
    FeedTwo(r, ZDLE, KindByte(k));
  }

  lemma TrailerByteFed(r: RxState, b: byte)
    requires r.CanRead() && r.InSubpacket() && r.sub.Trailer? && !r.crc.escapePending
    ensures
      var s := TrailerByte(r.crc, r.encoding, b);
      Feed(r, EscByte(b)) == FedOf(Judged(r.(crc := s.crc), r.sub.kind, s.verdict))
  {
    hide Judged, TrailerByte;
    CoverSafe(b);
    var c, s := r.crc, TrailerByte(r.crc, r.encoding, b);
    assert c.(escapePending := false) == c;
    if Special(b) {
      var d := c.(escapePending := true);
      var p := r.(crc := d);
      assert CrcStep(c, r.encoding, ZDLE) == CrcStepped(d, More);
      MoreWaits(p, r.sub.kind);
      assert TakeByte(r, ZDLE) == Done(p);
      assert d.(escapePending := false) == c;
      assert CrcStep(d, r.encoding, Cover(b)) == s;
      assert p.(crc := s.crc) == r.(crc := s.crc);
      FeedTwo(r, ZDLE, Cover(b));
    } else {
      assert CrcStep(c, r.encoding, b) == s;
      FeedOne(r, b);
    }
  }

  lemma MoreWaits(r: RxState, k: SubpacketType)
    ensures Judged(r, k, More) == Done(r)
  {
  }

  /** The verdict on a whole trailer. */
  function VerdictOn(c: CrcState, e: Encoding, sum: seq<byte>): Verdict
  {
    if sum == c.Expected(e) then Good else Bad(if e == ZBIN32 then UnexpectedCrc32 else UnexpectedCrc16)
  }

  lemma {:induction false} TrailerFed(r: RxState, sum: seq<byte>)
    requires r.CanRead() && r.InSubpacket() && r.sub.Trailer? && !r.crc.escapePending
    requires |r.crc.got| < CrcLen(r.encoding) && |r.crc.got| + |sum| == CrcLen(r.encoding)
    ensures
      var c := r.crc.(got := r.crc.got + sum);
      Feed(r, Esc(sum)) == FedOf(Judged(r.(crc := c), r.sub.kind, VerdictOn(r.crc, r.encoding, c.got)))
    decreases |sum|
  {
    hide Judged, Feed, EscByte, ExpectedOf;
    var s := TrailerByte(r.crc, r.encoding, sum[0]);
    var t := r.(crc := s.crc);
    TrailerByteFed(r, sum[0]);
    if |sum| == 1 {
      assert sum == [sum[0]] && Esc(sum) == EscByte(sum[0]) + [] && EscByte(sum[0]) + [] == EscByte(sum[0]);
    } else {
      MoreWaits(t, r.sub.kind);
      TrailerFed(t, sum[1..]);
      FeedConcat(r, EscByte(sum[0]), Esc(sum[1..]));
      assert (r.crc.got + [sum[0]]) + sum[1..] == r.crc.got + sum;
    }
  }

  /** The state in which the trailer of a subpacket has just been read. */
  function Received(r: RxState, s: SubWire): RxState
  {
    var t := AtTrailer(Staged(r, s.data), s.kind);
    t.(crc := t.crc.(got := s.sum))
  }

  /** The bytes of a subpacket are that subpacket: its data is staged whole, and
      it is judged good exactly when its seal is intact. */
  lemma SubpacketFed(r: RxState, s: SubWire)
    requires Reads(r) && r.buf == [] && |s.data| <= SUBPACKET_MAX_SIZE && |s.sum| == CrcLen(r.encoding)
    ensures Feed(r, s.Bytes()) ==
            FedOf(if s.Intact(r.encoding) then CompleteSubpacket(Received(r, s), s.kind)
                  else Judged(Received(r, s), s.kind, Bad(if r.encoding == ZBIN32 then UnexpectedCrc32 else UnexpectedCrc16)))
    ensures Received(r, s).buf == s.data
  {
    hide Feed, CompleteSubpacket, Recover, Esc, Mark, Staged, Reads;
    var d := Staged(r, s.data);
    var t := AtTrailer(d, s.kind);
    ContentFed(r, s.data, s.kind);
    StagedWhole(r, s.data);
    AtTrailerReady(d, s.kind);
    TrailerFed(t, s.sum);
    assert [] + s.sum == s.sum;
    IncrementalIsBatch(r.encoding, s.data + [KindByte(s.kind)]);
    FeedConcat(r, Esc(s.data) + Mark(s.kind), Esc(s.sum));
  }

  /** Data and terminator, up to the trailer. */
  lemma ContentFed(r: RxState, data: seq<byte>, k: SubpacketType)
    requires Reads(r) && r.buf == [] && |data| <= SUBPACKET_MAX_SIZE
    ensures Feed(r, Esc(data) + Mark(k)) == Fed.Fed(AtTrailer(Staged(r, data), k)) && Reads(Staged(r, data))
  {
    hide Feed, Esc, Mark, Reads, Staged, AtTrailer;
    DataFed(r, data);
    MarkFed(Staged(r, data), k);
    FeedConcat(r, Esc(data), Mark(k));
  }

  lemma StagedWhole(r: RxState, data: seq<byte>)
    requires r.buf == []
    ensures
      var d := Staged(r, data);
      d == r.(buf := data, crc := d.crc)
  {
    assert [] + data == data;
  }

  lemma AtTrailerReady(r: RxState, k: SubpacketType)
    requires Reads(r)
    ensures
      var t := AtTrailer(r, k);
      && t.CanRead() && t.InSubpacket() && t.sub == Trailer(k) && t.crc.got == [] && !t.crc.escapePending
      && t.encoding == r.encoding && t.crc == CrcAfter(r.encoding, r.buf + [KindByte(k)])
  {
  }

  // ---------------------------------------------------------------------
  // In any pieces
  // ---------------------------------------------------------------------

  /** Offering slice after slice, up to the first that is not taken whole. */
  function FeedSlices(r: RxState, slices: seq<seq<byte>>): Fed
    decreases |slices|
  {
    if slices == [] then Fed.Fed(r)
    else
      var f := Feed(r, slices[0]);
      if f.Fed? then FeedSlices(f.rx, slices[1..]) else f
  }

  /** What is not taken whole is not taken whole with more behind it. */
  lemma {:induction false} UnfedPrefix(r: RxState, a: seq<byte>, b: seq<byte>)
    requires !Feed(r, a).Fed?
    ensures Feed(r, a + b) == Feed(r, a)
    decreases |a|
  {
    hide TakeByte, RxState.CanRead;
    if a != [] && r.CanRead() {
      assert (a + b)[1..] == a[1..] + b;
      if TakeByte(r, a[0]).Done? {
        UnfedPrefix(TakeByte(r, a[0]).rx, a[1..], b);
      }
    }
  }

  lemma {:induction false} SlicesFed(r: RxState, slices: seq<seq<byte>>)
    ensures FeedSlices(r, slices) == Feed(r, Join(slices))
    decreases |slices|
  {
    hide Feed;
    if slices == [] {
      FeedNothing(r);
    } else if Feed(r, slices[0]).Fed? {
      SlicesFed(Feed(r, slices[0]).rx, slices[1..]);
      FeedConcat(r, slices[0], Join(slices[1..]));
    } else {
      UnfedPrefix(r, slices[0], Join(slices[1..]));
    }
  }

  /** Subpacket round trip under any slicing: what `WriteSubpacket` wrote, cut into
      any pieces, is taken whole and completes with exactly its data, its terminator
      and a good checksum. Data that is not empty then goes on offer. */
  lemma SubpacketRoundTrip(r: RxState, kind: SubpacketType, data: seq<byte>, slices: seq<seq<byte>>)
    requires Reads(r) && r.buf == [] && |data| <= SUBPACKET_MAX_SIZE && r.encoding != ZHEX
    requires Join(slices) == EncSubpacket(r.encoding, kind, data)
    ensures
      var s := Sealed(r.encoding, kind, data);
      && FeedSlices(r, slices) == FedOf(CompleteSubpacket(Received(r, s), kind))
      && Received(r, s).buf == data && Received(r, s).crc.got == Received(r, s).crc.Expected(r.encoding)
    ensures r.phase == FileReadingSubpacket && data != [] ==>
              var f := FeedSlices(r, slices);
              f.Fed? && f.rx.sub == Writing(kind) && f.rx.FileBytes() == data
  {
    hide Feed, FinishSubpacket, StartFile, Checksum;
    var s := Sealed(r.encoding, kind, data);
    assert s.Bytes() == EncSubpacket(r.encoding, kind, data);
    SlicesFed(r, slices);
    SubpacketFed(r, s);
    IncrementalIsBatch(r.encoding, data + [KindByte(kind)]);
    assert [] + data == data;
  }

  // ---------------------------------------------------------------------
  // A frame that is not expected
  // ---------------------------------------------------------------------

  /** A ZDATA at another offset is answered with the offset wanted, but its
      subpackets are not read as such and resync is not armed. Their bytes pass if
      and only if no ZPAD stands right before a ZDLE; otherwise the run breaks. */
  lemma UnexpectedData(r: RxState, wire: seq<byte>)
    requires r.CanRead() && !r.InSubpacket() && r.reader == FRESH && NoFakeHeader(wire)
    ensures Feed(r, wire).Fed? <==> Gap(wire)
    ensures !Gap(wire) ==> Feed(r, wire).Broken? && Feed(r, wire).error.MalformedEncoding?
  {
    hide Feed, ReadChunk, Gap, NoFakeHeader;
    StrayUnarmed(FRESH, wire);
    var a := ReadChunk(FRESH, wire);
    if a.outcome.Nothing? {
      ReaderFed(r, wire);
    } else {
      var taken := wire[..a.taken];
      ChunkAlone(FRESH, wire);
      OutcomeFed(r, taken);
      assert wire == taken + wire[a.taken..];
      UnfedPrefix(r, taken, wire[a.taken..]);
    }
  }

  /** What such a header does, and that a payload can then break the run. */
  lemma UnexpectedDataBreaks(r: RxState, offset: u32)
    requires r.CanRead() && r.phase == FileWaitingSubpacket && r.reader == FRESH && offset != r.count
    ensures
      var h := Header(ZBIN32, ZDATA, LeBytes(offset));
      && HandleHeader(r, h) == Done(r.(out := Some(ZRPOS_HEADER.WithCount(r.count)), sent := 0))
    ensures NoFakeHeader(Esc([ZPAD, ZDLE])) && Feed(r, Esc([ZPAD, ZDLE])).Broken?
  {
    hide Feed, FromLe, LeBytes, NoFakeHeader, Gap;
    LeRoundTrip(offset);
    var e := Esc([ZPAD, ZDLE]);
    EscapedLanguage([ZPAD, ZDLE]);
    assert e == [ZPAD, ZDLE, Cover(ZDLE)] by {
      assert [ZPAD, ZDLE][1..] == [ZDLE] && [ZDLE][1..] == [];
      assert Esc([]) == [];
      assert Esc([ZDLE]) == EscByte(ZDLE) + [] && EscByte(ZDLE) == [ZDLE, Cover(ZDLE)];
      assert EscByte(ZPAD) == [ZPAD];
    }
    NotAGap(e);
    UnexpectedData(r, e);
  }

  lemma NotAGap(s: seq<byte>)
    requires |s| > 1 && s[0] == ZPAD && s[1] == ZDLE
    ensures !Gap(s)
  {
    assert s[0 + 1] == ZDLE;
  }
}
