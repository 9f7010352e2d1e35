/** The receiver's invariant survives every operation, whatever the wire carries. */
module ReceiverInvariant {
  import opened Primitives
  import opened Zdle
  import opened HeaderCodec
  import opened HeaderReading
  import opened Subpackets
  import opened FileMetadata
  import opened ReceiverSpec

  lemma InitialInv(bufferLen: nat, overlapped: bool)
    requires bufferLen < 0x1_0000
    ensures Inv(Initial(bufferLen, overlapped))
  {
    HeaderSize(ZrinitHeader(bufferLen, overlapped));
  }

  lemma QueueInv(r: RxState, h: Header)
    requires Inv(r) && (r.sub.Writing? ==> r.written == |r.buf|)
    ensures Inv(Queue(r, h).rx)
    ensures Queue(r, h).Done? <==> r.out.None?
  {
    hide EncHeader, Checked;
    HeaderSize(h);
    if r.out.None? && r.InSubpacket() {
      CheckedSame(r, Queue(r, h).rx);
    }
  }

  /** The checksum clause looks at four fields only. */
  lemma CheckedSame(r: RxState, t: RxState)
    requires Checked(r) && t.sub == r.sub && t.buf == r.buf && t.crc == r.crc
    requires t.encoding == r.encoding && t.escapePending == r.escapePending
    ensures Checked(t)
  {
  }

  lemma CheckedFresh(r: RxState)
    requires r.buf == [] && r.crc == NO_CRC && !r.escapePending
    requires r.sub.Reading? || r.sub.SkipTrailer?
    ensures Checked(r)
  {
    IncrementalIsBatch(r.encoding, []);
  }

  lemma PushEventInv(r: RxState, e: Event)
    requires Inv(r) && !r.EventsFull()
    ensures PushEvent(r, e).Done? && Inv(PushEvent(r, e).rx)
  {
    hide EncHeader, Checked;
    if r.InSubpacket() {
      CheckedSame(r, PushEvent(r, e).rx);
    }
  }

  lemma OnZsinitInv(r: RxState, h: Header)
    requires Inv(r) && r.phase == SessionBegin && r.reader == FRESH
    ensures Inv(OnZsinit(r, h))
  {
    hide EncHeader, Checked;
    CheckedFresh(OnZsinit(r, h));
  }

  lemma OnZfileInv(r: RxState, h: Header)
    requires Inv(r) && (r.phase == SessionBegin || r.phase == FileBegin) && r.reader == FRESH
    ensures Inv(OnZfile(r, h))
  {
    hide EncHeader, Checked;
    CheckedFresh(OnZfile(r, h));
  }

  lemma OnZdataInv(r: RxState, h: Header)
    requires Inv(r) && (r.phase == FileBegin || r.phase == FileWaitingSubpacket) && r.reader == FRESH && r.out.None?
    ensures OnZdata(r, h).Done? && Inv(OnZdata(r, h).rx)
  {
    hide EncHeader, Checked;
    if h.Count() != r.count {
      QueueInv(r, ZRPOS_HEADER.WithCount(r.count));
    } else {
      CheckedFresh(OnZdata(r, h).rx);
    }
  }

  lemma OnZeofInv(r: RxState)
    requires Inv(r) && (r.phase == FileBegin || r.phase == FileWaitingSubpacket) && !r.Blocked()
    ensures OnZeof(r).Done? && Inv(OnZeof(r).rx)
  {
    hide EncHeader, Checked;
    QueueInv(r, ZrinitHeader(r.bufferLen, r.overlapped));
  }

  lemma OnZfinInv(r: RxState)
    requires Inv(r) && (r.phase == FileBegin || r.phase == FileWaitingSubpacket) && !r.Blocked()
    ensures OnZfin(r).Done? && Inv(OnZfin(r).rx)
  {
    hide EncHeader, Checked;
    QueueInv(r, ZFIN_HEADER);
  }

  /** No header can fail to be handled, and the invariant survives it. */
  lemma HandleHeaderInv(r: RxState, h: Header)
    requires Inv(r) && r.CanRead() && !r.InSubpacket() && r.reader == FRESH
    ensures HandleHeader(r, h).Done? && Inv(HandleHeader(r, h).rx)
  {
    hide EncHeader, Checked, OnZsinit, OnZfile, OnZdata, OnZeof, OnZfin;
    if r.phase == SessionBegin {
      QueueInv(r, ZrinitHeader(r.bufferLen, r.overlapped));
      OnZsinitInv(r, h);
      OnZfileInv(r, h);
    } else if r.phase == FileBegin || r.phase == FileWaitingSubpacket {
      OnZdataInv(r, h);
      OnZeofInv(r);
      OnZfinInv(r);
      if r.phase == FileBegin {
        OnZfileInv(r, h);
      }
    }
  }

  // ---------------------------------------------------------------------
  // Subpacket bytes
  // ---------------------------------------------------------------------

  lemma TakeDataInv(r: RxState, b: byte)
    requires Inv(r) && r.CanRead() && r.InSubpacket() && r.sub.Reading?
    ensures Inv(TakeData(r, b).rx)
    ensures TakeData(r, b).Refused? ==> !Misuse(TakeData(r, b).error)
  {
    hide EncHeader, CrcAfter, CrcState.Updated;
    CrcAfterSnoc(r.encoding, r.buf, b);
  }

  lemma TakeFollowerInv(r: RxState, b: byte)
    requires Inv(r) && r.CanRead() && r.InSubpacket() && r.sub.Reading? && !r.escapePending
    ensures Inv(TakeFollower(r, b).rx)
    ensures TakeFollower(r, b).Refused? ==> !Misuse(TakeFollower(r, b).error)
  {
    hide EncHeader, TakeData;
    TakeDataInv(r, Uncover(b));
    if KindOf(b).Some? {
      CrcAfterSnoc(r.encoding, r.buf, b);
      assert CrcAfter(r.encoding, r.buf + [b]).got == [];
    }
  }

  /** What one trailer byte does to the running checksum. */
  lemma CrcStepShape(c: CrcState, e: Encoding, b: byte)
    requires |c.got| < CrcLen(e)
    ensures
      var s := CrcStep(c, e, b);
      && s.crc == c.(got := s.crc.got, escapePending := s.crc.escapePending)
      && (s.verdict.More? ==> |s.crc.got| < CrcLen(e))
      && (!s.verdict.More? ==> |s.crc.got| == CrcLen(e))
      && (s.verdict.Good? ==> s.crc.got == c.Expected(e))
      && (s.verdict.Bad? ==> !Misuse(s.verdict.error))
  {
    hide ExpectedOf;
  }

  lemma ParseZfileShape(r: RxState)
    ensures
      var p := ParseZfile(r);
      && p.rx == r.(fileName := p.rx.fileName, fileSize := p.rx.fileSize, count := p.rx.count)
      && (p.Done? ==> |p.rx.fileName| <= NAME_CAP && p.rx.count == 0)
  {
  }

  lemma StartFileInv(r: RxState)
    requires Sized(r) && r.retries <= MAX_ZRPOS_RETRIES && r.reader == FRESH
    requires r.CanRead() && r.phase == FileReadingMetadata && r.sub.Trailer?
    ensures
      var p := StartFile(r);
      && (p.Done? ==> Inv(p.rx))
      && (p.Refused? ==> p.rx == r.(fileName := p.rx.fileName) && !Misuse(p.error))
  {
    hide EncHeader, ParseZfile, Queue, PushEvent, Checked;
    ParseZfileShape(r);
    var p := ParseZfile(r);
    if p.Refused? {
      ParseZfileRefused(r);
    } else {
      var c := p.rx.Cleared().(sub := Resting);
      var m, f := c.(phase := FileAcceptPending), c.(phase := FileBegin, active := true);
      assert Inv(m) && Inv(f);
      PushEventInv(m, FileStart);
      QueueInv(f, ZRPOS_HEADER.WithCount(0));
      QueueShape(f, ZRPOS_HEADER.WithCount(0));
      QueueShape(p.rx.Cleared(), ZRPOS_HEADER.WithCount(0));
      PushEventInv(Queue(f, ZRPOS_HEADER.WithCount(0)).rx, FileStart);
    }
  }

  lemma QueueShape(r: RxState, h: Header)
    requires r.out.None?
    ensures Queue(r, h) == Done(r.(out := Some(h), sent := 0))
  {
  }

  lemma ParseZfileRefused(r: RxState)
    requires ParseZfile(r).Refused?
    ensures ParseZfile(r).rx == r.(fileName := ParseZfile(r).rx.fileName)
    ensures !Misuse(ParseZfile(r).error)
  {
    hide Field, AfterField, SizeField, ValueOf, AllDigits;
  }

  lemma FinishSubpacketInv(r: RxState, k: SubpacketType)
    requires Sized(r) && r.out.None? && r.sub.Writing?
    requires r.phase == FileReadingSubpacket || r.phase == SessionEnd
    requires r.InSubpacket() ==> r.reader == FRESH
    requires r.count + |r.buf| <= MAX_COUNT
    ensures FinishSubpacket(r, k).Done? && Inv(FinishSubpacket(r, k).rx)
  {
    hide EncHeader, Checked;
    var c := r.Cleared().(count := r.count + |r.buf|, retries := 0, sub := Reading);
    CheckedFresh(c);
    assert Inv(c);
    var w := c.(phase := FileWaitingSubpacket, sub := Resting);
    assert Inv(w);
    QueueInv(c, ZACK_HEADER.WithCount(c.count));
    QueueInv(w, ZACK_HEADER.WithCount(c.count));
    FinishedAs(r, k, c, w);
  }

  /** The four terminators, one by one. */
  lemma FinishedAs(r: RxState, k: SubpacketType, c: RxState, w: RxState)
    requires r.out.None? && r.count + |r.buf| <= MAX_COUNT
    requires c == r.Cleared().(count := r.count + |r.buf|, retries := 0, sub := Reading)
    requires w == c.(phase := FileWaitingSubpacket, sub := Resting)
    ensures FinishSubpacket(r, k) ==
            match k
            case ZCRCW => Queue(w, ZACK_HEADER.WithCount(c.count))
            case ZCRCQ => Queue(c, ZACK_HEADER.WithCount(c.count))
            case ZCRCG => Done(c)
            case ZCRCE => Done(w)
  {
    hide EncHeader, Header.WithCount;
  }

  lemma RecoverInv(r: RxState, e: Error)
    requires Sized(r) && r.retries <= MAX_ZRPOS_RETRIES && r.out.None? && r.phase == FileReadingSubpacket
    requires r.sub.Trailer? && r.reader == FRESH
    ensures
      var p := Recover(r, e);
      && (p.Done? <==> r.retries < MAX_ZRPOS_RETRIES)
      && (p.Done? ==> Inv(p.rx))
      && (p.Refused? ==> p.error == e && p.rx == r.(retries := MAX_ZRPOS_RETRIES + 1))
  {
    hide EncHeader;
    HeaderSize(ZRPOS_HEADER.WithCount(r.count));
  }

  lemma CompleteSubpacketInv(r: RxState, k: SubpacketType)
    requires Sized(r) && Matched(r) && r.retries <= MAX_ZRPOS_RETRIES && r.reader == FRESH
    requires r.CanRead() && r.InSubpacket() && r.sub == Trailer(k)
    ensures
      var p := CompleteSubpacket(r, k);
      && (p.Done? ==> Inv(p.rx))
      && (p.Refused? ==> p.rx == r.(fileName := p.rx.fileName) && !Misuse(p.error))
  {
    hide EncHeader, StartFile, FinishSubpacket, Checked, Queue, Inv, Sized;
    if r.phase == FileReadingMetadata {
      StartFileInv(r);
    } else if r.phase == SinitReadingData {
      SinitDoneInv(r);
    } else {
      OfferInv(r, k);
    }
  }

  /** A ZSINIT is acknowledged, and the session begins over. */
  lemma SinitDoneInv(r: RxState)
    requires Sized(r) && r.retries <= MAX_ZRPOS_RETRIES && r.out.None?
    ensures
      var q := Queue(r.Cleared(), ZACK_HEADER);
      q.Done? && Inv(q.rx.(phase := SessionBegin, sub := Resting))
  {
    hide EncHeader, Checked, Queue;
    HeaderSize(ZACK_HEADER);
    QueueShape(r.Cleared(), ZACK_HEADER);
  }

  /** Good data goes on offer, unless there is none of it. */
  lemma OfferInv(r: RxState, k: SubpacketType)
    requires Sized(r) && r.retries <= MAX_ZRPOS_RETRIES && r.reader == FRESH
    requires r.CanRead() && r.phase == FileReadingSubpacket
    ensures
      var w := r.(sub := Writing(k), written := 0);
      var p := if w.buf == [] then FinishSubpacket(w, k) else Done(w);
      p.Done? && Inv(p.rx)
  {
    hide EncHeader, FinishSubpacket, Checked;
    var w := r.(sub := Writing(k), written := 0);
    CheckedWriting(w);
    if r.buf == [] {
      FinishSubpacketInv(w, k);
    }
  }

  lemma TrailerInv(r: RxState, b: byte)
    requires Inv(r) && r.CanRead() && r.InSubpacket() && r.sub.Trailer?
    ensures
      var p := TakeSubpacketByte(r, b);
      && (p.Done? ==> Inv(p.rx))
      && (p.Refused? ==> Spent(p.rx) && !Misuse(p.error))
  {
    hide EncHeader, CrcStep, CompleteSubpacket, Recover, CrcAfter;
    CrcStepShape(r.crc, r.encoding, b);
    var s := CrcStep(r.crc, r.encoding, b);
    var t := r.(crc := s.crc);
    CompleteSubpacketInv(t, r.sub.kind);
    if r.phase == FileReadingSubpacket && s.verdict.Bad? {
      RecoverInv(t, s.verdict.error);
    }
  }

  /** A byte of a subpacket keeps the invariant, or ends the run. */
  lemma SubpacketByteInv(r: RxState, b: byte)
    requires Inv(r) && r.CanRead() && r.InSubpacket()
    ensures
      var p := TakeSubpacketByte(r, b);
      && (p.Done? ==> Inv(p.rx))
      && (p.Refused? ==> (Inv(p.rx) || Spent(p.rx)) && !Misuse(p.error))
  {
    hide EncHeader, TakeData, TakeFollower, CrcStep, Judged, CrcAfter;
    match r.sub {
      case SkipTrailer =>
        var t := r.(sub := Reading);
        CheckedFresh(t);
        TakeDataInv(t, b);
      case Reading =>
        var t := r.(escapePending := false);
        TakeFollowerInv(t, b);
        TakeDataInv(r, b);
      case Trailer(k) => TrailerInv(r, b);
    }
  }

  // ---------------------------------------------------------------------
  // Any byte, any run of bytes
  // ---------------------------------------------------------------------

  lemma TakeByteInv(r: RxState, b: byte)
    requires Inv(r) && r.CanRead()
    ensures
      var p := TakeByte(r, b);
      && (p.Done? ==> Inv(p.rx))
      && (p.Refused? ==> (Inv(p.rx) || Spent(p.rx)) && !Misuse(p.error))
  {
    hide EncHeader, TakeSubpacketByte, HandleHeader, ReadStep, Checked;
    if r.InSubpacket() {
      SubpacketByteInv(r, b);
    } else {
      var s := ReadStep(r.reader, b);
      var t := r.(reader := s.reader);
      QueueInv(t, ZNAK_HEADER);
      FailureKind(r.reader, b);
      if s.outcome.Got? {
        GotIsFresh(r.reader, b);
        HandleHeaderInv(t, s.outcome.header);
      }
    }
  }

  /** A header leaves the reader fresh. */
  lemma GotIsFresh(r: Reader, b: byte)
    requires ReadStep(r, b).outcome.Got?
    ensures ReadStep(r, b).reader == FRESH
  {
  }

  /** Whatever bytes arrive, in whatever number, the invariant holds until a fatal
      checksum or metadata error; and no byte meets a full queue or a subpacket
      phase that does not fit, so what breaks the run is neither of those. */
  lemma {:induction false} FeedInv(r: RxState, wire: seq<byte>)
    requires Inv(r)
    ensures
      var f := Feed(r, wire);
      && (Inv(f.rx) || (f.Broken? && Spent(f.rx)))
      && (f.Broken? ==> !Misuse(f.error))
    decreases |wire|
  {
    hide TakeByte, Inv, Spent, RxState.CanRead;
    if wire != [] && r.CanRead() {
      TakeByteInv(r, wire[0]);
      var p := TakeByte(r, wire[0]);
      if p.Done? {
        FeedInv(p.rx, wire[1..]);
      }
    }
  }

  // ---------------------------------------------------------------------
  // The caller's operations
  // ---------------------------------------------------------------------

  lemma WireWrittenInv(r: RxState, n: nat)
    requires Inv(r)
    ensures Inv(WireWritten(r, n))
  {
    hide EncHeader, Checked;
    if r.InSubpacket() {
      CheckedSame(r, WireWritten(r, n));
    }
  }

  /** Persisting data never meets backpressure. The one refusal is an offset past
      32 bits, and it leaves the data on record. */
  lemma FileWrittenInv(r: RxState, n: nat)
    requires Inv(r)
    ensures Inv(FileWritten(r, n).rx)
    ensures
      var w := r.written + Min(n, |r.FileBytes()|);
      FileWritten(r, n).Refused? <==>
        r.sub.Writing? && w == |r.buf| && r.count + |r.buf| > MAX_COUNT
    ensures FileWritten(r, n).Refused? ==> FileWritten(r, n).error == OutOfMemory
  {
    hide EncHeader, FinishSubpacket, Checked;
    if r.sub.Writing? {
      var w := r.(written := r.written + Min(n, |r.FileBytes()|));
      if w.written == |w.buf| {
        if w.count + |w.buf| <= MAX_COUNT {
          FinishSubpacketInv(w, w.sub.kind);
        } else {
          FinishRefused(w, w.sub.kind);
          CheckedWriting(w);
        }
      } else {
        CheckedWriting(w);
      }
    }
  }

  lemma CheckedWriting(r: RxState)
    requires r.sub.Writing?
    ensures Checked(r)
  {
  }

  lemma FinishRefused(r: RxState, k: SubpacketType)
    requires r.count + |r.buf| > MAX_COUNT
    ensures FinishSubpacket(r, k) == Refused(r, OutOfMemory)
  {
  }

  lemma PopEventInv(r: RxState)
    requires Inv(r)
    ensures Inv(PopEvent(r))
  {
    hide EncHeader, Checked;
    if r.InSubpacket() {
      CheckedSame(r, PopEvent(r));
    }
  }

  lemma TimeoutInv(r: RxState)
    requires Inv(r)
    ensures Timeout(r).Done? && Inv(Timeout(r).rx)
  {
    hide EncHeader, Checked;
    HeaderSize(ZrinitHeader(r.bufferLen, r.overlapped));
  }

  lemma AbortInv(r: RxState)
    requires Inv(r)
    ensures Inv(Abort(r).rx) && (Abort(r).Refused? <==> r.EventsFull())
  {
    hide EncHeader, Checked;
  }

  lemma AcceptFileAtInv(r: RxState, offset: u32)
    requires Inv(r)
    ensures Inv(AcceptFileAt(r, offset).rx)
  {
    hide EncHeader, Checked;
    HeaderSize(ZRPOS_HEADER.WithCount(offset));
  }

  lemma SkipFileInv(r: RxState)
    requires Inv(r)
    ensures Inv(SkipFile(r).rx)
  {
    hide EncHeader, Checked;
    HeaderSize(ZSKIP_HEADER);
  }
}
