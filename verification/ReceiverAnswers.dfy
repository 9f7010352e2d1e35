/** What the receiver answers, told in the headers and bytes that go out: to malformed
    wire, to every header in every phase, to every terminator, and to metadata. */
module ReceiverAnswers {
  import opened Primitives
  import opened Zdle
  import opened HeaderCodec
  import opened HeaderReading
  import opened HeaderOutcomes
  import opened Subpackets
  import opened FileMetadata
  import opened ReceiverSpec
  import opened ReceiverInvariant
  import opened ReceiverFrames
  import opened Negotiation

  // ---------------------------------------------------------------------
  // Malformed wire
  // ---------------------------------------------------------------------

  /** The wire bytes on offer are one whole header, and nothing else. */
  predicate Offers(r: RxState, h: Header)
  {
    r.WireBytes() == EncHeader(h) && r.out == Some(h)
  }

  /** And so they read back as that header alone. */
  lemma OfferReads(r: RxState, h: Header)
    requires Offers(r, h)
    ensures Decoded(FRESH, r.WireBytes()) == Decoding(FRESH, [Got(h)])
  {
    hide EncHeader, Decoded, RxState.WireBytes;
    OneHeader(h);
  }

  /** A byte with which the header reader fails is refused with the reader's error, and a
      hex ZNAK with count zero is on offer; nothing else of the receiver changes. */
  lemma MalformedAnswered(r: RxState, b: byte, e: Error)
    requires Inv(r) && r.CanRead() && !r.InSubpacket() && ReadStep(r.reader, b).outcome == Failed(e)
    ensures
      var p := TakeByte(r, b);
      && p.Refused? && p.error == e && Offers(p.rx, Header(ZHEX, ZNAK, [0, 0, 0, 0]))
      && p.rx == r.(reader := ReadStep(r.reader, b).reader, out := p.rx.out, sent := 0)
  {
    hide EncHeader, ReadStep, Checked;
    assert EncHeader(ZNAK_HEADER)[0..] == EncHeader(ZNAK_HEADER);
  }

  /** A run of bytes that breaks outside a subpacket leaves that ZNAK on offer. */
  lemma {:induction false} BreakAnswered(r: RxState, wire: seq<byte>)
    requires Inv(r) && Feed(r, wire).Broken? && !Feed(r, wire).rx.InSubpacket()
    ensures Offers(Feed(r, wire).rx, Header(ZHEX, ZNAK, [0, 0, 0, 0]))
    decreases |wire|
  {
    hide TakeByte, Inv, RxState.CanRead, Offers;
    TakeByteInv(r, wire[0]);
    var p := TakeByte(r, wire[0]);
    if p.Done? {
      BreakAnswered(p.rx, wire[1..]);
    } else {
      RefusedOutside(r, wire[0]);
    }
  }

  /** What refuses a byte outside a subpacket is the header reader. */
  lemma RefusedOutside(r: RxState, b: byte)
    requires Inv(r) && r.CanRead() && TakeByte(r, b).Refused? && !TakeByte(r, b).rx.InSubpacket()
    ensures Offers(TakeByte(r, b).rx, Header(ZHEX, ZNAK, [0, 0, 0, 0]))
  {
    hide Inv, Offers, TakeSubpacketByte, ReadStep, HandleHeader, RxState.CanRead;
    if r.InSubpacket() {
      RefusedInside(r, b);
    } else {
      var s := ReadStep(r.reader, b);
      if s.outcome.Got? {
        GotIsFresh(r.reader, b);
        ReaderOnly(r, s.reader);
        HandleHeaderInv(r.(reader := s.reader), s.outcome.header);
      } else {
        MalformedAnswered(r, b, s.outcome.error);
      }
    }
  }

  lemma ReaderOnly(r: RxState, reader: Reader)
    requires Inv(r) && r.CanRead() && !r.InSubpacket() && reader == FRESH
    ensures Inv(r.(reader := reader)) && r.(reader := reader).CanRead() && !r.(reader := reader).InSubpacket()
  {
    hide EncHeader, Checked;
  }

  /** A byte refused inside a subpacket leaves the receiver there. */
  lemma RefusedInside(r: RxState, b: byte)
    requires Inv(r) && r.CanRead() && r.InSubpacket() && TakeSubpacketByte(r, b).Refused?
    ensures TakeSubpacketByte(r, b).rx.InSubpacket()
  {
    hide EncHeader, TakeData, TakeFollower, CrcStep, Judged, Checked;
    if r.sub.Trailer? {
      JudgedInside(r, b);
    } else {
      DataInside(r, b);
      DataInside(r.(escapePending := false), b);
      DataInside(r.(sub := Reading), b);
    }
  }

  lemma DataInside(r: RxState, b: byte)
    ensures TakeData(r, b).rx.phase == r.phase && TakeFollower(r, b).rx.phase == r.phase
  {
    hide CrcState.Updated, KindOf, Uncover;
  }

  lemma JudgedInside(r: RxState, b: byte)
    requires Inv(r) && r.CanRead() && r.InSubpacket() && r.sub.Trailer?
    ensures
      var s := CrcStep(r.crc, r.encoding, b);
      var p := Judged(r.(crc := s.crc), r.sub.kind, s.verdict);
      p.Refused? ==> p.rx.phase == r.phase
  {
    hide EncHeader, CrcStep, CompleteSubpacket, Recover, CrcAfter;
    CrcStepShape(r.crc, r.encoding, b);
    var s := CrcStep(r.crc, r.encoding, b);
    var t := r.(crc := s.crc);
    CompleteSubpacketInv(t, r.sub.kind);
    if r.phase == FileReadingSubpacket && s.verdict.Bad? {
      RecoverInv(t, s.verdict.error);
    }
  }

  /** A header that arrives whole with a wrong checksum, or with a frame type there is none
      of, in any encoding and however escaped: the error that says so, and the ZNAK. */
  lemma DamagedHeaderAnswered(r: RxState, e: Encoding, payload: seq<byte>, sum: seq<byte>, wire: seq<byte>)
    requires Inv(r) && r.CanRead() && !r.InSubpacket() && r.reader.scan.Seeking? && !r.reader.resyncing
    requires |payload| == 5 && |sum| == (if e == ZBIN32 then 4 else 2)
    requires Unesc(false, wire) == (false, Written(e, payload, sum))
    requires sum != Checksum(e, payload) || payload[0] >= 20
    ensures
      var f := Feed(r, Start(e) + wire);
      && f.Broken? && Offers(f.rx, Header(ZHEX, ZNAK, [0, 0, 0, 0]))
      && f.error == (if sum == Checksum(e, payload) then MalformedFrame(payload[0])
                     else if e == ZBIN32 then UnexpectedCrc32 else UnexpectedCrc16)
  {
    hide Feed, ReadChunk, Unesc, Start, Checksum, Written, EncHeader, Checked;
    HeaderJudged(r.reader, e, payload, sum, wire);
    OutcomeFed(r, Start(e) + wire);
    assert EncHeader(ZNAK_HEADER)[0..] == EncHeader(ZNAK_HEADER);
  }

  // ---------------------------------------------------------------------
  // Every header, in every phase
  // ---------------------------------------------------------------------

  /** Ready for a header. */
  predicate Hears(r: RxState)
  {
    Inv(r) && r.CanRead() && !r.InSubpacket() && r.reader == FRESH
  }

  /** The headers that say something to a receiver. */
  predicate Heeds(r: RxState, h: Header)
  {
    || h.frame == ZABORT || h.frame == ZCAN
    || (r.phase == SessionBegin && h.frame in {ZRQINIT, ZDATA, ZSINIT, ZFILE})
    || (r.phase == FileBegin && h.frame in {ZFILE, ZDATA, ZFIN})
    || (r.phase == FileWaitingSubpacket && h.frame in {ZDATA, ZFIN})
    || (h.frame == ZEOF && h.Count() == r.count
        && (r.phase == FileWaitingSubpacket || (r.phase == FileBegin && r.active)))
  }

  /** All other headers are passed over, and these are not. */
  lemma HeedsExactly(r: RxState, h: Header)
    requires Hears(r)
    ensures HandleHeader(r, h).rx != r <==> Heeds(r, h)
  {
    hide EncHeader, Checked, Header.Count, Header.WithCount, ZrinitHeader;
  }

  /** A sender that asks, or sends data before any file, is told the receiver's set-up. */
  lemma AsksHeard(r: RxState, h: Header)
    requires Hears(r) && r.phase == SessionBegin && (h.frame == ZRQINIT || h.frame == ZDATA)
    ensures
      var t := HandleHeader(r, h).rx;
      && t == r.(out := t.out, sent := 0) && t.out.Some?
      && t.out.value.encoding == ZHEX && t.out.value.frame == ZRINIT
      && Says(t.out.value.flags, r.bufferLen, r.overlapped)
  {
    hide EncHeader, Checked, ZrinitHeader;
    BufferBound(r);
    Advertises(r.bufferLen, r.overlapped);
  }

  lemma BufferBound(r: RxState)
    requires Inv(r)
    ensures r.bufferLen < 0x1_0000
  {
    hide EncHeader, Checked;
  }

  /** A ZFILE makes the receiver read metadata, in the encoding of the header. */
  lemma ZfileHeard(r: RxState, h: Header)
    requires Hears(r) && (r.phase == SessionBegin || r.phase == FileBegin) && h.frame == ZFILE
    ensures HandleHeader(r, h) ==
            Done(r.(phase := FileReadingMetadata, encoding := h.encoding, sub := Reading,
                    buf := [], written := 0, crc := NO_CRC, escapePending := false))
  {
    hide EncHeader, Checked, Header.Count;
  }

  /** A ZDATA makes it read data if it stands at the offset wanted; else the offset wanted
      is asked for. */
  lemma ZdataHeard(r: RxState, h: Header)
    requires Hears(r) && (r.phase == FileBegin || r.phase == FileWaitingSubpacket) && h.frame == ZDATA
    ensures h.Count() == r.count ==>
              HandleHeader(r, h) ==
              Done(r.(phase := FileReadingSubpacket, encoding := h.encoding, sub := Reading,
                      buf := [], written := 0, crc := NO_CRC, escapePending := false))
    ensures h.Count() != r.count ==>
              HandleHeader(r, h) == Done(r.(out := Some(Header(ZHEX, ZRPOS, LeBytes(r.count))), sent := 0))
  {
    hide EncHeader, Checked, Header.Count, LeBytes;
  }

  /** A ZEOF at the offset reached completes the file: a ZRINIT goes out. */
  lemma ZeofHeard(r: RxState, h: Header)
    requires Hears(r) && h.frame == ZEOF && h.Count() == r.count
    requires r.phase == FileWaitingSubpacket || (r.phase == FileBegin && r.active)
    ensures
      var t := HandleHeader(r, h).rx;
      && t == r.(out := t.out, sent := 0, phase := FileBegin, active := false, events := r.events + [FileComplete])
      && t.out.Some? && t.out.value.encoding == ZHEX && t.out.value.frame == ZRINIT
      && Says(t.out.value.flags, r.bufferLen, r.overlapped)
  {
    hide EncHeader, Checked, Header.Count, ZrinitHeader;
    BufferBound(r);
    Advertises(r.bufferLen, r.overlapped);
  }

  /** A ZFIN between files ends the session and is returned; ZABORT and ZCAN end it in any
      phase, with nothing sent. */
  lemma EndsHeard(r: RxState, h: Header)
    requires Hears(r)
    ensures h.frame == ZFIN && (r.phase == FileBegin || r.phase == FileWaitingSubpacket) ==>
              HandleHeader(r, h) ==
              Done(r.(out := Some(Header(ZHEX, ZFIN, [0, 0, 0, 0])), sent := 0, phase := SessionEnd,
                      events := r.events + [SessionComplete]))
    ensures h.frame == ZABORT || h.frame == ZCAN ==>
              HandleHeader(r, h) == Done(r.(phase := SessionEnd, events := r.events + [Aborted]))
  {
    hide EncHeader, Checked, Header.Count;
  }

  // ---------------------------------------------------------------------
  // Subpackets: what is made of them, and what is answered
  // ---------------------------------------------------------------------

  /** Ready for the first byte of a subpacket. */
  predicate Listens(r: RxState)
  {
    Reads(r) && r.buf == [] && r.out.None?
  }

  /** A whole subpacket with the right checksum completes, in the encoding of its header. */
  lemma SealedFed(r: RxState, k: SubpacketType, data: seq<byte>)
    requires Listens(r) && |data| <= 1024
    ensures
      var t := Received(r, Sealed(r.encoding, k, data));
      && Feed(r, Sealed(r.encoding, k, data).Bytes()) == FedOf(CompleteSubpacket(t, k))
      && t == r.(buf := data, crc := t.crc, sub := Trailer(k))
  {
    hide Feed, CompleteSubpacket, Checksum, CrcAfter, Esc;
    SubpacketFed(r, Sealed(r.encoding, k, data));
    assert [] + data == data;
  }

  /** What the four terminators ask for, by their codes: an answer for ZCRCW and ZCRCQ, more
      data for ZCRCQ and ZCRCG, a header for ZCRCW and ZCRCE. */
  predicate AnswersAs(r: RxState, k: SubpacketType, count: u32)
  {
    && r.count == count && r.retries == 0 && r.buf == [] && r.written == 0 && r.crc == NO_CRC && !r.escapePending
    && (KindByte(k) == 0x6A || KindByte(k) == 0x6B ==>
          r.out == Some(Header(ZHEX, ZACK, LeBytes(count))) && r.sent == 0)
    && (KindByte(k) == 0x68 || KindByte(k) == 0x69 ==> r.out.None?)
    && (KindByte(k) == 0x69 || KindByte(k) == 0x6A ==> r.phase == FileReadingSubpacket && r.sub == Reading)
    && (KindByte(k) == 0x68 || KindByte(k) == 0x6B ==> r.phase == FileWaitingSubpacket && r.sub == Resting)
  }

  lemma FinishAnswers(r: RxState, k: SubpacketType)
    requires r.out.None? && r.phase == FileReadingSubpacket && r.count + |r.buf| < 0x1_0000_0000
    ensures FinishSubpacket(r, k).Done? && AnswersAs(FinishSubpacket(r, k).rx, k, r.count + |r.buf|)
  {
    hide LeBytes;
  }

  /** Data that is not empty goes on offer, nothing more; once all of it is persisted, in
      however many parts, the terminator is answered. Empty data is answered at once. */
  lemma DataAnswered(r: RxState, k: SubpacketType, data: seq<byte>)
    requires Listens(r) && r.phase == FileReadingSubpacket && |data| <= 1024
    requires r.count + |data| < 0x1_0000_0000
    ensures
      var f := Feed(r, Sealed(r.encoding, k, data).Bytes());
      && f.Fed?
      && (data == [] ==> AnswersAs(f.rx, k, r.count))
      && (data != [] ==> f.rx.FileBytes() == data && f.rx == r.(buf := data, crc := f.rx.crc, sub := Writing(k), written := 0))
  {
    hide Feed, FinishSubpacket, Checksum, CrcAfter, Esc, AnswersAs;
    SealedFed(r, k, data);
    if data == [] {
      var w := Received(r, Sealed(r.encoding, k, data)).(sub := Writing(k), written := 0);
      FinishAnswers(w, k);
    } else {
      assert data[0..] == data;
    }
  }

  lemma PersistedAnswered(r: RxState, n: nat)
    requires r.phase == FileReadingSubpacket && r.sub.Writing? && r.out.None? && r.written < |r.buf|
    ensures n < |r.FileBytes()| ==> FileWritten(r, n) == Done(r.(written := r.written + n))
    ensures n >= |r.FileBytes()| && r.count + |r.buf| < 0x1_0000_0000 ==>
              FileWritten(r, n).Done? && AnswersAs(FileWritten(r, n).rx, r.sub.kind, r.count + |r.buf|)
    ensures n >= |r.FileBytes()| && r.count + |r.buf| >= 0x1_0000_0000 ==>
              FileWritten(r, n) == Refused(r.(written := |r.buf|), OutOfMemory)
  {
    hide FinishSubpacket, AnswersAs;
    var w := r.(written := |r.buf|);
    if r.count + |r.buf| < 0x1_0000_0000 {
      FinishAnswers(w, r.sub.kind);
    } else {
      FinishRefused(w, r.sub.kind);
    }
  }

  /** Data under a wrong checksum is dropped and the offset asked for again, up to ten times
      in a row; after that, and for metadata and a ZSINIT at once, the checksum error ends
      the run with nothing sent. */
  lemma DamageAnswered(r: RxState, s: SubWire)
    requires Listens(r) && |s.data| <= 1024 && |s.sum| == CrcLen(r.encoding) && !s.Intact(r.encoding)
    ensures
      var f := Feed(r, s.Bytes());
      && (r.phase == FileReadingSubpacket && r.retries < 10 ==>
            f == Fed.Fed(r.(out := Some(Header(ZHEX, ZRPOS, LeBytes(r.count))), sent := 0, retries := r.retries + 1,
                            phase := FileWaitingSubpacket, sub := Resting, written := 0, crc := NO_CRC,
                            reader := r.reader.(resyncing := true))))
      && (r.phase != FileReadingSubpacket || r.retries >= 10 ==>
            && f.Broken? && f.error == (if r.encoding == ZBIN32 then UnexpectedCrc32 else UnexpectedCrc16)
            && f.rx.out.None? && f.rx.phase == r.phase && f.rx.count == r.count)
  {
    hide Feed, Checksum, CrcAfter, Esc, LeBytes, SubWire.Intact, CompleteSubpacket;
    SubpacketFed(r, s);
  }

  /** No subpacket holds more than 1024 bytes. */
  lemma Overfull(r: RxState, b: byte)
    requires Reads(r) && |r.buf| == 1024 && b != 0x18
    ensures Feed(r, [b]) == Broken(r, OutOfMemory)
  {
    hide CrcAfter;
    FeedOne(r, b);
  }

  // ---------------------------------------------------------------------
  // Metadata
  // ---------------------------------------------------------------------

  /** What a metadata payload says: a name that is not empty, of at most 256 bytes, up to
      the first NUL; behind it the size in decimal, up to a space or a NUL, nothing being
      zero; and whatever else. */
  ghost predicate Describes(payload: seq<byte>, name: seq<byte>, size: u32)
  {
    && name != [] && 0 !in name && |name| <= 256 && name <= payload
    && (if payload == name then size == 0
        else
          && payload[|name|] == 0
          && exists digits :: Sized(payload[|name| + 1..], digits) && AllDigits(digits) && ValueOf(digits) == size)
  }

  /** A decimal number of 32 bits. */
  predicate IsSize(field: seq<byte>)
  {
    AllDigits(field) && ValueOf(field) < 0x1_0000_0000
  }

  /** The first field of what follows the name. */
  predicate Sized(rest: seq<byte>, field: seq<byte>)
  {
    && 0 !in field && 0x20 !in field && field <= rest
    && (field == rest || rest[|field|] == 0 || rest[|field|] == 0x20)
  }

  lemma FieldStopsAt(s: seq<byte>, f: seq<byte>, sep: byte)
    requires sep !in f && f <= s && (f == s || s[|f|] == sep)
    ensures Field(s, sep) == f
    ensures AfterField(s, sep) == if f == s then None else Some(s[|f| + 1..])
  {
    hide Field;
    var rest := s[|f|..];
    assert s == f + rest;
    FieldIs(f, sep, rest);
    if rest != [] {
      assert rest[1..] == s[|f| + 1..];
    }
  }

  lemma SizedField(rest: seq<byte>, field: seq<byte>)
    requires Sized(rest, field)
    ensures SizeField(rest) == field
  {
    hide Field;
    var n := Field(rest, 0);
    NulFirst(rest, field);
    FieldStopsAt(n, field, 0x20);
  }

  lemma NulFirst(rest: seq<byte>, field: seq<byte>)
    requires Sized(rest, field)
    ensures
      var n := Field(rest, 0);
      field <= n && (field == n || n[|field|] == 0x20)
  {
    hide Field;
    var n := Field(rest, 0);
    assert n == rest[..|n|];
    assert forall i :: 0 <= i < |field| ==> field[i] == rest[i];
    assert |field| < |n| ==> rest[|field|] in n;
  }

  lemma ParsesName(r: RxState, name: seq<byte>)
    requires name <= r.buf && 0 !in name && (name == r.buf || r.buf[|name|] == 0)
    ensures
      var p := ParseZfile(r);
      && (name == [] ==> p == Refused(r, MalformedFileName))
      && (|name| > 256 ==> p == Refused(r.(fileName := []), OutOfMemory))
      && (name != [] && |name| <= 256 && name == r.buf ==> p == Done(r.(fileName := name, fileSize := 0, count := 0)))
  {
    hide Field, SizeField;
    FieldStopsAt(r.buf, name, 0);
  }

  lemma ParsesSize(r: RxState, name: seq<byte>, field: seq<byte>)
    requires name < r.buf && 0 !in name && r.buf[|name|] == 0 && name != [] && |name| <= 256
    requires Sized(r.buf[|name| + 1..], field)
    ensures
      ParseZfile(r) ==
      if IsSize(field)
      then Done(r.(fileName := name, fileSize := ValueOf(field), count := 0))
      else Refused(r.(fileName := name), MalformedFileSize)
  {
    hide Field, SizeField, AllDigits, ValueOf;
    FieldStopsAt(r.buf, name, 0);
    SizedField(r.buf[|name| + 1..], field);
  }

  /** Metadata that describes a file announces it, in any encoding: asked for from its start
      unless the caller decides. */
  lemma MetadataAnswered(r: RxState, k: SubpacketType, payload: seq<byte>, name: seq<byte>, size: u32)
    requires Listens(r) && r.phase == FileReadingMetadata && |payload| <= 1024 && Describes(payload, name, size)
    ensures
      var f := Feed(r, Sealed(r.encoding, k, payload).Bytes());
      var t := r.(fileName := name, fileSize := size, count := 0, buf := [], written := 0, crc := NO_CRC,
                  escapePending := false, sub := Resting, events := r.events + [FileStart]);
      f == Fed.Fed(
        if r.manual then t.(phase := FileAcceptPending)
        else t.(phase := FileBegin, active := true, out := Some(Header(ZHEX, ZRPOS, [0, 0, 0, 0])), sent := 0))
  {
    hide Feed, ParseZfile, Sealed, CrcAfter, Sized, ValueOf, AllDigits;
    SealedFed(r, k, payload);
    var t := Received(r, Sealed(r.encoding, k, payload));
    Described(t, name, size);
    assert LeBytes(0) == [0, 0, 0, 0];
  }

  lemma Described(t: RxState, name: seq<byte>, size: u32)
    requires Describes(t.buf, name, size)
    ensures ParseZfile(t) == Done(t.(fileName := name, fileSize := size, count := 0))
  {
    hide ParseZfile, Sized, ValueOf, AllDigits;
    ParsesName(t, name);
    if t.buf != name {
      var digits :| Sized(t.buf[|name| + 1..], digits) && AllDigits(digits) && ValueOf(digits) == size;
      ParsesSize(t, name, digits);
    }
  }

  /** And metadata that does not is refused, with nothing sent: no name, a name that is too
      long, or a size that is no 32-bit decimal number. */
  lemma MetadataRefused(r: RxState, k: SubpacketType, payload: seq<byte>, name: seq<byte>, field: seq<byte>)
    requires Listens(r) && r.phase == FileReadingMetadata && |payload| <= 1024
    requires name <= payload && 0 !in name && (name == payload || payload[|name|] == 0)
    requires name != payload ==> Sized(payload[|name| + 1..], field)
    ensures
      var f := Feed(r, Sealed(r.encoding, k, payload).Bytes());
      && (name == [] ==> f.Broken? && f.error == MalformedFileName)
      && (|name| > 256 ==> f.Broken? && f.error == OutOfMemory)
      && (name != [] && |name| <= 256 && name != payload && !IsSize(field) ==> f.Broken? && f.error == MalformedFileSize)
      && (f.Broken? ==> f.rx.out.None? && f.rx.phase == FileReadingMetadata && f.rx.events == r.events)
  {
    hide Feed, ParseZfile, Sealed, CrcAfter, Sized, ValueOf, AllDigits, Header.WithCount;
    SealedFed(r, k, payload);
    var t := Received(r, Sealed(r.encoding, k, payload));
    ParsesName(t, name);
    if name != payload && name != [] && |name| <= 256 {
      ParsesSize(t, name, field);
    }
  }

  /** Every payload is one or the other: there is always such a name, and such a field. */
  lemma MetadataParts(payload: seq<byte>) returns (name: seq<byte>, field: seq<byte>)
    ensures name <= payload && 0 !in name && (name == payload || payload[|name|] == 0)
    ensures name != payload ==> Sized(payload[|name| + 1..], field)
  {
    hide Field;
    name := Field(payload, 0);
    field := [];
    if name != payload {
      var rest := payload[|name| + 1..];
      var n := Field(rest, 0);
      field := Field(n, 0x20);
      assert forall b :: b in field ==> b in n;
    }
  }

  // ---------------------------------------------------------------------
  // Headers and what follows them, in every encoding
  // ---------------------------------------------------------------------

  /** Ready for a subpacket in this encoding. */
  lemma Opened(r: RxState, e: Encoding)
    requires r.CanRead() && r.out.None? && r.InSubpacket() && r.sub == Reading && r.encoding == e
    requires r.buf == [] && r.crc == NO_CRC && !r.escapePending
    ensures Listens(r)
  {
    IncrementalIsBatch(e, []);
  }

  /** A ZFILE header and its metadata, in any encoding, from either phase that takes files. */
  lemma FileAnnounced(r: RxState, h: Header, k: SubpacketType, payload: seq<byte>, name: seq<byte>, size: u32)
    requires Hears(r) && (r.phase == SessionBegin || r.phase == FileBegin) && h.frame == ZFILE
    requires |payload| <= 1024 && Describes(payload, name, size)
    ensures
      var f := Feed(r, HeaderCore(h) + Sealed(h.encoding, k, payload).Bytes());
      && f.Fed? && f.rx.fileName == name && f.rx.fileSize == size && f.rx.count == 0
      && f.rx.events == r.events + [FileStart]
      && (if r.manual then f.rx.phase == FileAcceptPending && f.rx.out.None?
          else f.rx.phase == FileBegin && f.rx.active && f.rx.out == Some(Header(ZHEX, ZRPOS, [0, 0, 0, 0])))
  {
    hide Feed, HeaderCore, Sealed, Inv, HandleHeader, Describes, Listens;
    var u := HandleHeader(r, h).rx;
    assert r.(reader := FRESH) == r;
    HeaderFed(r, h);
    ZfileHeard(r, h);
    Opened(u, h.encoding);
    MetadataAnswered(u, k, payload, name, size);
    FeedConcat(r, HeaderCore(h), Sealed(h.encoding, k, payload).Bytes());
  }

  /** A ZDATA header at the offset wanted and a subpacket, in any encoding: exactly its data
      goes on offer. */
  lemma DataArrives(r: RxState, h: Header, k: SubpacketType, data: seq<byte>)
    requires Hears(r) && (r.phase == FileBegin || r.phase == FileWaitingSubpacket)
    requires h.frame == ZDATA && h.Count() == r.count && data != [] && |data| <= 1024
    requires r.count + |data| < 0x1_0000_0000
    ensures
      var f := Feed(r, HeaderCore(h) + Sealed(h.encoding, k, data).Bytes());
      && f.Fed? && f.rx.FileBytes() == data && f.rx.phase == FileReadingSubpacket && f.rx.sub == Writing(k)
      && f.rx.count == r.count && f.rx.out.None? && f.rx.events == r.events
  {
    hide Feed, HeaderCore, Sealed, Inv, HandleHeader, Listens, Header.Count;
    var u := HandleHeader(r, h).rx;
    assert r.(reader := FRESH) == r;
    HeaderFed(r, h);
    ZdataHeard(r, h);
    Opened(u, h.encoding);
    DataAnswered(u, k, data);
    FeedConcat(r, HeaderCore(h), Sealed(h.encoding, k, data).Bytes());
  }

  // ---------------------------------------------------------------------
  // The caller's decisions
  // ---------------------------------------------------------------------

  /** A file on offer is accepted with a ZRPOS at the caller's offset, or declined with a
      ZSKIP; out of turn, or with something still going out, nothing changes. */
  lemma DecisionAnswered(r: RxState, offset: u32)
    ensures r.phase != FileAcceptPending ==>
              AcceptFileAt(r, offset) == Refused(r, InvalidState) && SkipFile(r) == Refused(r, InvalidState)
    ensures r.phase == FileAcceptPending && r.out.Some? ==>
              AcceptFileAt(r, offset) == Refused(r, Backpressure) && SkipFile(r) == Refused(r, Backpressure)
    ensures r.phase == FileAcceptPending && r.out.None? ==>
              AcceptFileAt(r, offset) == Done(r.(out := Some(Header(ZHEX, ZRPOS, LeBytes(offset))), sent := 0,
                                                 count := offset, phase := FileBegin, active := true))
    ensures r.phase == FileAcceptPending && r.out.None? ==>
              SkipFile(r) == Done(r.(out := Some(Header(ZHEX, ZSKIP, [0, 0, 0, 0])), sent := 0,
                                     phase := FileBegin, active := false))
  {
    hide LeBytes;
  }

  /** A timeout repeats the ZRINIT while a session or a file is waited for with nothing going
      out, and does nothing otherwise; an abort ends the session in any phase. */
  lemma TimeoutAnswered(r: RxState)
    requires Inv(r)
    ensures
      var t := Timeout(r).rx;
      if (r.phase == SessionBegin || r.phase == FileBegin) && r.out.None? then
        && t == r.(out := t.out, sent := 0) && t.out.Some?
        && t.out.value.encoding == ZHEX && t.out.value.frame == ZRINIT
        && Says(t.out.value.flags, r.bufferLen, r.overlapped)
      else t == r
    ensures |r.events| < 4 ==> Abort(r) == Done(r.(phase := SessionEnd, events := r.events + [Aborted]))
    ensures |r.events| == 4 ==> Abort(r) == Refused(r.(phase := SessionEnd), OutOfMemory)
  {
    hide EncHeader, Checked, ZrinitHeader;
    BufferBound(r);
    Advertises(r.bufferLen, r.overlapped);
  }

  // ---------------------------------------------------------------------
  // Draining
  // ---------------------------------------------------------------------

  /** No wire input is taken exactly while wire bytes or file bytes are on offer, or four
      events wait; what is written out is no longer on offer, and the rest still is. */
  lemma Draining(r: RxState, n: nat)
    requires Inv(r)
    ensures r.Blocked() <==> r.WireBytes() != [] || r.FileBytes() != [] || |r.events| == 4
    ensures WireWritten(r, n).WireBytes() == if n < |r.WireBytes()| then r.WireBytes()[n..] else []
    ensures WireWritten(r, n) == r.(out := WireWritten(r, n).out, sent := WireWritten(r, n).sent)
  {
    hide EncHeader, Checked;
    if r.out.Some? && n < |r.WireBytes()| {
      assert EncHeader(r.out.value)[r.sent..][n..] == EncHeader(r.out.value)[r.sent + n..];
    }
  }

  /** A new receiver has its ZRINIT on offer, and waits for a session. */
  lemma FirstWords(bufferLen: nat, overlapped: bool)
    requires bufferLen < 0x1_0000
    ensures
      var r := Initial(bufferLen, overlapped);
      && r.phase == SessionBegin && r.sub == Resting && r.reader == FRESH && !r.manual && !r.active
      && r.count == 0 && r.retries == 0 && r.buf == [] && r.written == 0 && r.events == []
      && r.fileName == [] && r.fileSize == 0 && r.bufferLen == bufferLen && r.overlapped == overlapped
      && r.out.Some? && r.out.value.encoding == ZHEX && r.out.value.frame == ZRINIT
      && Says(r.out.value.flags, bufferLen, overlapped) && Offers(r, r.out.value)
  {
    hide EncHeader, ZrinitHeader;
    Advertises(bufferLen, overlapped);
    var h := ZrinitHeader(bufferLen, overlapped);
    assert EncHeader(h)[0..] == EncHeader(h);
  }
}
