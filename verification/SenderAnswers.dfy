/** What the sender answers, told in the headers and bytes that go out: to malformed wire,
    to every header in every phase, and to its caller. */
module SenderAnswers {
  import opened Primitives
  import opened HeaderCodec
  import opened HeaderReading
  import opened HeaderOutcomes
  import opened Subpackets
  import opened FileMetadata
  import opened SenderSpec
  import opened SenderInvariant
  import opened SenderFrames
  import Zdle

  /** The wire bytes on offer are one whole header, and nothing else. */
  predicate Offers(t: TxState, h: Header)
  {
    t.WireBytes() == EncHeader(h) && t.out == [Head(h)]
  }

  lemma OfferReads(t: TxState, h: Header)
    requires Offers(t, h)
    ensures Decoded(FRESH, t.WireBytes()) == Decoding(FRESH, [Got(h)])
  {
    hide EncHeader, Decoded, TxState.WireBytes;
    OneHeader(h);
  }

  lemma OfferedHead(t: TxState, h: Header)
    requires t.out == [Head(h)] && t.sent == 0
    ensures Offers(t, h)
  {
    hide EncHeader, WireOf;
    OneMsg(Head(h));
    assert EncHeader(h)[0..] == EncHeader(h);
  }

  // ---------------------------------------------------------------------
  // Malformed wire
  // ---------------------------------------------------------------------

  /** A byte with which the header reader fails is refused with the reader's error, and a
      hex ZNAK with count zero is on offer; nothing else of the sender changes. */
  lemma MalformedAnswered(t: TxState, b: byte, e: Error)
    requires Inv(t) && !t.Blocked() && ReadStep(t.reader, b).outcome == Failed(e)
    ensures
      var p := TakeByte(t, b);
      && p.Refused? && p.error == e && Offers(p.tx, Header(ZHEX, ZNAK, [0, 0, 0, 0]))
      && p.tx == t.(reader := ReadStep(t.reader, b).reader, out := p.tx.out, sent := 0)
  {
    hide Inv, Offers, ReadStep;
    OfferedHead(TakeByte(t, b).tx, ZNAK_HEADER);
  }

  /** Whatever breaks a run of bytes, that ZNAK is on offer. */
  lemma {:induction false} BreakAnswered(t: TxState, wire: seq<byte>)
    requires Inv(t) && Feed(t, wire).Broken?
    ensures Offers(Feed(t, wire).tx, Header(ZHEX, ZNAK, [0, 0, 0, 0]))
    decreases |wire|
  {
    hide TakeByte, Inv, Offers;
    TakeByteInv(t, wire[0]);
    var p := TakeByte(t, wire[0]);
    if p.Done? {
      BreakAnswered(p.tx, wire[1..]);
    } else {
      RefusedByReader(t, wire[0]);
    }
  }

  /** What refuses a byte is the header reader. */
  lemma RefusedByReader(t: TxState, b: byte)
    requires Inv(t) && !t.Blocked() && TakeByte(t, b).Refused?
    ensures Offers(TakeByte(t, b).tx, Header(ZHEX, ZNAK, [0, 0, 0, 0]))
  {
    hide Inv, Offers, ReadStep, HandleHeader;
    var s := ReadStep(t.reader, b);
    FailureKind(t.reader, b);
    ReaderInv(t, s.reader);
    if s.outcome.Got? {
      HandleHeaderInv(t.(reader := s.reader), s.outcome.header);
    } else {
      MalformedAnswered(t, b, s.outcome.error);
    }
  }

  /** A header that arrives whole with a wrong checksum, or with a frame type there is none
      of, in any encoding and however escaped: the error that says so, and the ZNAK. */
  lemma DamagedHeaderAnswered(t: TxState, e: Encoding, payload: seq<byte>, sum: seq<byte>, wire: seq<byte>)
    requires Inv(t) && !t.Blocked() && t.reader.scan.Seeking? && !t.reader.resyncing
    requires |payload| == 5 && |sum| == (if e == ZBIN32 then 4 else 2)
    requires Zdle.Unesc(false, wire) == (false, Written(e, payload, sum))
    requires sum != Checksum(e, payload) || payload[0] >= 20
    ensures
      var f := Feed(t, Start(e) + wire);
      && f.Broken? && Offers(f.tx, Header(ZHEX, ZNAK, [0, 0, 0, 0]))
      && f.error == (if sum == Checksum(e, payload) then MalformedFrame(payload[0])
                     else if e == ZBIN32 then UnexpectedCrc32 else UnexpectedCrc16)
  {
    hide Feed, ReadChunk, Start, Checksum, Written, Inv, Offers;
    HeaderJudged(t.reader, e, payload, sum, wire);
    OutcomeFed(t, Start(e) + wire);
    BreakAnswered(t, Start(e) + wire);
  }

  // ---------------------------------------------------------------------
  // Every header, in every phase
  // ---------------------------------------------------------------------

  /** Ready for a header. */
  predicate Hears(t: TxState)
  {
    Inv(t) && !t.Blocked()
  }

  /** Pacing aside, the headers that say something to a sender: all but a skip and a ZFIN
      while it waits for the receiver; and then what its phase waits for, a skip while a
      file is under way, and an abort. */
  predicate Heeds(t: TxState, h: Header)
  {
    || (t.phase == WaitReceiverInit && h.frame != ZSKIP && h.frame != ZFIN)
    || h.frame == ZABORT || h.frame == ZCAN
    || (h.frame == ZRINIT && (t.phase == WaitFileDone || t.phase == WaitFinish))
    || (h.frame == ZFIN && t.phase == WaitFinish)
    || ((h.frame == ZRPOS || h.frame == ZACK) && (t.phase == WaitFilePos || t.phase == WaitFileAck))
    || (h.frame == ZSKIP && (t.phase == WaitFilePos || t.phase == WaitFileAck || t.phase == WaitFileDone))
  }

  /** Everything but the pacing. */
  function Unpaced(t: TxState): TxState
  {
    t.(nonstop := false, maxSubpacket := 1, perAck := 1)
  }

  lemma AskingBlocked(t: TxState)
    requires Hears(t)
    ensures t.phase != NeedFileData && t.phase != Finished
  {
    hide WireOf, DivCeil;
  }

  /** All other headers change nothing but the pacing, which only a ZRINIT does; these
      change more. */
  lemma HeedsExactly(t: TxState, h: Header)
    requires Hears(t)
    ensures
      var u := HandleHeader(t, h).tx;
      && (Unpaced(u) != Unpaced(t) <==> Heeds(t, h))
      && (h.frame != ZRINIT && !Heeds(t, h) ==> u == t)
  {
    hide Inv, UpdateCaps, Header.Count, OnZrinit, OnZrpos;
    AskingBlocked(t);
    if h.frame == ZRINIT {
      ZrinitChanges(t, h);
    } else {
      ZrposChanges(t, h.Count());
    }
  }

  lemma ZrinitChanges(t: TxState, h: Header)
    requires Hears(t)
    ensures
      Unpaced(OnZrinit(t, h).tx) != Unpaced(t) <==>
      t.phase == WaitReceiverInit || t.phase == WaitFileDone || t.phase == WaitFinish
  {
    hide Inv, UpdateCaps, ZfileFrame;
    CapsOnly(t, h);
  }

  lemma ZrposChanges(t: TxState, offset: u32)
    requires Hears(t) && t.phase != NeedFileData
    ensures
      var u := OnZrpos(t, offset).tx;
      && (Unpaced(u) != Unpaced(t) <==> t.phase == WaitReceiverInit || t.phase == WaitFilePos || t.phase == WaitFileAck)
      && (Unpaced(u) == Unpaced(t) ==> u == t)
  {
    hide Inv, DivCeil, Header.WithCount;
  }

  /** The handshake. A receiver that shows itself is offered the file on record; without one
      the sender is ready, or says goodbye if its caller is done. */
  lemma HandshakeHeard(t: TxState, h: Header)
    requires Hears(t) && t.phase == WaitReceiverInit && h.frame == ZRINIT
    ensures
      var u := HandleHeader(t, h).tx;
      && (t.hasFile ==>
            Unpaced(u) == Unpaced(t.(phase := WaitFilePos, sent := 0,
              out := [Head(Header(ZBIN32, ZFILE, [0, 0, 0, 0])),
                      Data(Sealed(ZBIN32, ZCRCW, t.fileName + [0] + Decimal(t.fileSize) + [0]))])))
      && (!t.hasFile && t.finishRequested ==>
            Unpaced(u) == Unpaced(t.(phase := WaitFinish, out := u.out, sent := 0)) && Offers(u, Header(ZHEX, ZFIN, [0, 0, 0, 0])))
      && (!t.hasFile && !t.finishRequested ==> Unpaced(u) == Unpaced(t.(phase := ReadyForFile)))
  {
    hide Inv, UpdateCaps, Header.Count, Offers, Sealed, Decimal;
    CapsOnly(t, h);
    var u := HandleHeader(t, h).tx;
    if !t.hasFile && t.finishRequested {
      OfferedHead(u, ZFIN_HEADER);
    }
  }

  /** Anything else makes a sender that waits for the receiver ask again. */
  lemma EarlyHeard(t: TxState, h: Header)
    requires Hears(t) && t.phase == WaitReceiverInit
    requires h.frame != ZRINIT && h.frame !in {ZSKIP, ZABORT, ZCAN, ZFIN}
    ensures
      var u := HandleHeader(t, h).tx;
      Offers(u, Header(ZHEX, ZRQINIT, [0, 0, 0, 0])) && u == t.(out := u.out, sent := 0)
  {
    hide Inv, Header.Count, Offers;
    OfferedHead(HandleHeader(t, h).tx, ZRQINIT_HEADER);
  }

  lemma NothingSent(t: TxState)
    requires Hears(t)
    ensures t.sent == 0
  {
    hide WireOf, DivCeil;
  }

  /** The end of a file: it is reported, and the sender is ready for the next, or says
      goodbye if its caller is done. */
  lemma FileEndHeard(t: TxState, h: Header)
    requires Hears(t) && h.frame == ZRINIT && t.phase == WaitFileDone
    ensures
      var u := HandleHeader(t, h).tx;
      && Unpaced(u) == Unpaced(t.(phase := u.phase, event := Some(FileCompleted), hasFile := false, out := u.out))
      && (if t.finishRequested then u.phase == WaitFinish && Offers(u, Header(ZHEX, ZFIN, [0, 0, 0, 0]))
          else u.phase == ReadyForFile && u.out == [])
  {
    hide Inv, UpdateCaps, Header.Count, Offers, EncHeader;
    CapsOnly(t, h);
    NothingSent(t);
    if t.finishRequested {
      OfferedHead(HandleHeader(t, h).tx, ZFIN_HEADER);
    }
  }

  /** The end of the session: OO, and it is reported. */
  lemma SessionEndHeard(t: TxState, h: Header)
    requires Hears(t) && (h.frame == ZRINIT || h.frame == ZFIN) && t.phase == WaitFinish
    ensures
      var u := HandleHeader(t, h).tx;
      && Unpaced(u) == Unpaced(t.(phase := Finished, event := Some(SessionCompleted), out := u.out))
      && u.WireBytes() == [0x4F, 0x4F]
  {
    hide Inv, UpdateCaps, Header.Count, WireOf;
    CapsOnly(t, h);
    NothingSent(t);
    OverFits();
    assert OO[0..] == OO;
  }

  /** A file that is skipped, wherever it stands, is reported done; an abort ends the
      session; neither sends anything. */
  lemma SkipHeard(t: TxState, h: Header)
    requires Hears(t)
    ensures h.frame == ZSKIP && (t.phase == WaitFilePos || t.phase == WaitFileAck || t.phase == WaitFileDone) ==>
              HandleHeader(t, h) ==
              Done(t.(phase := ReadyForFile, event := Some(FileCompleted), hasFile := false, frameRemaining := 0))
    ensures h.frame == ZABORT || h.frame == ZCAN ==>
              HandleHeader(t, h) == Done(t.(phase := Finished, event := Some(Stopped)))
    ensures h.frame == ZSKIP && t.phase == WaitReceiverInit ==> HandleHeader(t, h) == Done(t)
    ensures h.frame == ZFIN && t.phase == WaitReceiverInit ==> HandleHeader(t, h) == Done(t)
  {
    hide Inv, Header.Count;
    assert t.(request := None) == t;
  }

  /** A position within the file is read from next, as much as one subpacket takes; one at or
      past the end ends the file there. */
  lemma PositionHeard(t: TxState, h: Header)
    requires Hears(t) && (h.frame == ZRPOS || h.frame == ZACK) && (t.phase == WaitFilePos || t.phase == WaitFileAck)
    ensures
      var u, offset := HandleHeader(t, h).tx, h.Count();
      if offset < t.fileSize then
        u == t.(phase := NeedFileData, needsHeader := true, frameRemaining := u.frameRemaining,
                request := Some(FileRequest(offset, Min(t.maxSubpacket, t.fileSize - offset))))
      else
        u == t.(phase := WaitFileDone, out := u.out, sent := 0) && Offers(u, Header(ZBIN32, ZEOF, LeBytes(offset)))
  {
    hide WireOf, DivCeil, Header.Count, Offers, LeBytes;
    var u := HandleHeader(t, h).tx;
    if h.Count() >= t.fileSize {
      OfferedHead(u, ZEOF_HEADER.WithCount(h.Count()));
    }
  }

  // ---------------------------------------------------------------------
  // The caller's operations
  // ---------------------------------------------------------------------

  /** A file is refused for its size if that is not known, then out of turn, then for its
      name; before the handshake it is kept for later, and between files announced. */
  lemma StartAnswered(t: TxState, name: seq<byte>, size: Option<u32>)
    requires Inv(t)
    ensures
      var p := StartFile(t, name, size);
      var turn := t.phase == WaitReceiverInit || t.phase == ReadyForFile;
      && (size.None? ==> p == Refused(t, UnsupportedFeature))
      && (size.Some? && !turn ==> p == Refused(t, InvalidState))
      && (size.Some? && turn && |name| > 256 ==> p == Refused(t.(fileName := []), OutOfMemory))
      && (size.Some? && turn && |name| <= 256 ==>
            var f := t.(fileName := name, fileSize := size.value, hasFile := true, request := None,
                        frameRemaining := 0, needsHeader := false);
            && (t.phase == WaitReceiverInit ==> p == Done(f))
            && (t.phase == ReadyForFile && t.out != [] ==> p == Refused(f, Backpressure))
            && (t.phase == ReadyForFile && t.out == [] ==>
                  p == Done(f.(phase := WaitFilePos, sent := 0,
                    out := [Head(Header(ZBIN32, ZFILE, [0, 0, 0, 0])),
                            Data(Sealed(ZBIN32, ZCRCW, name + [0] + Decimal(size.value) + [0]))]))))
  {
    hide Inv, Sealed, Decimal;
  }

  /** Data is refused out of turn; then if there is none of it or it is more than was asked
      for; then while something still goes out. Else it goes out as one subpacket, behind a
      ZDATA at its offset if it opens a frame: under ZCRCW if it closes the frame, and under
      ZCRCG, with the rest asked for next, if it does not. */
  lemma DataAnswered(t: TxState, data: seq<byte>)
    requires Inv(t)
    ensures
      var p := SubmitFile(t, data);
      && (t.phase != NeedFileData ==> p == Refused(t, InvalidState))
      && (t.phase == NeedFileData && !(1 <= |data| <= t.request.value.len) ==> p == Refused(t, UnexpectedEof))
      && (t.phase == NeedFileData && 1 <= |data| <= t.request.value.len && t.out != [] ==> p == Refused(t, Backpressure))
      && (t.phase == NeedFileData && 1 <= |data| <= t.request.value.len && t.out == [] ==>
            p.Done? && SentAs(t, data, p.tx))
  {
    hide WireOf, DivCeil, DataFrame, ClosesFrame, LeBytes;
    if t.phase == NeedFileData && 1 <= |data| <= t.request.value.len && t.out == [] {
      DataSent(t, data);
    }
  }

  predicate SentAs(t: TxState, data: seq<byte>, u: TxState)
    requires t.request.Some?
  {
    var offset := t.request.value.offset;
    var code := if u.request.None? then 0x6B else 0x69;
    && u == t.(phase := u.phase, request := u.request, frameRemaining := u.frameRemaining,
               needsHeader := false, out := u.out, sent := 0)
    && u.out != []
    && (var last := u.out[|u.out| - 1];
        && last.Data? && last.sub.data == data && KindByte(last.sub.kind) == code && last.sub.Intact(ZBIN32))
    && (if t.needsHeader then |u.out| == 2 && u.out[0] == Head(Header(ZBIN32, ZDATA, LeBytes(offset))) else |u.out| == 1)
    && (if u.request.None? then u.phase == WaitFileAck
        else
          && u.phase == NeedFileData && u.request.value.offset == offset + |data|
          && u.request.value.len == Min(t.maxSubpacket, t.fileSize - offset - |data|))
  }

  lemma DataSent(t: TxState, data: seq<byte>)
    requires Inv(t) && t.phase == NeedFileData && t.request.Some? && 1 <= |data| <= t.request.value.len && t.out == []
    ensures SubmitFile(t, data).Done? && SentAs(t, data, SubmitFile(t, data).tx)
  {
    hide WireOf, DivCeil, ClosesFrame, LeBytes, Checksum;
  }

  /** A finish is remembered, and said at once between files; a timeout asks again while the
      receiver is waited for with nothing going out, and does nothing otherwise; an abort
      ends the session and drops what was asked for. */
  lemma CallsAnswered(t: TxState)
    requires Inv(t)
    ensures t.phase != ReadyForFile ==> Finish(t) == Done(t.(finishRequested := true))
    ensures t.phase == ReadyForFile && t.out != [] ==> Finish(t) == Refused(t.(finishRequested := true), Backpressure)
    ensures t.phase == ReadyForFile && t.out == [] ==>
              && Finish(t) == Done(t.(finishRequested := true, phase := WaitFinish, out := Finish(t).tx.out, sent := 0))
              && Offers(Finish(t).tx, Header(ZHEX, ZFIN, [0, 0, 0, 0]))
    ensures t.phase == WaitReceiverInit && t.out == [] ==>
              && Timeout(t) == Done(t.(out := Timeout(t).tx.out, sent := 0))
              && Offers(Timeout(t).tx, Header(ZHEX, ZRQINIT, [0, 0, 0, 0]))
    ensures t.phase != WaitReceiverInit || t.out != [] ==> Timeout(t) == Done(t)
    ensures Abort(t) == t.(phase := Finished, request := None, event := Some(Stopped))
  {
    hide Inv, Offers;
    if t.phase == ReadyForFile && t.out == [] {
      OfferedHead(Finish(t).tx, ZFIN_HEADER);
    }
    if t.phase == WaitReceiverInit && t.out == [] {
      OfferedHead(Timeout(t).tx, ZRQINIT_HEADER);
    }
  }

  /** A new sender asks for a receiver, and has nothing to report; what is reported is gone. */
  lemma FirstWords(t: TxState)
    ensures Offers(Initial(), Header(ZHEX, ZRQINIT, [0, 0, 0, 0])) && Initial().phase == WaitReceiverInit
    ensures !Initial().hasFile && Initial().request.None? && Initial().event.None? && !Initial().finishRequested
    ensures Initial().fileName == [] && Initial().reader == FRESH
    ensures PopEvent(t) == t.(event := None)
  {
    hide Offers;
    OfferedHead(Initial(), ZRQINIT_HEADER);
  }

  /** No wire input is taken exactly while wire bytes are on offer, data is asked for, or the
      session is over; what is written out is no longer on offer, and the rest still is. */
  lemma Draining(t: TxState, n: nat)
    requires Inv(t)
    ensures t.Blocked() <==> t.WireBytes() != [] || t.request.Some? || t.phase == Finished
    ensures WireWritten(t, n).WireBytes() == if n < |t.WireBytes()| then t.WireBytes()[n..] else []
    ensures WireWritten(t, n) == t.(out := WireWritten(t, n).out, sent := WireWritten(t, n).sent)
  {
    hide WireOf, DivCeil;
    NoMsgs();
    if n < |t.WireBytes()| {
      assert WireOf(t.out)[t.sent..][n..] == WireOf(t.out)[t.sent + n..];
    }
  }
}
