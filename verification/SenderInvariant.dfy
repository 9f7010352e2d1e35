/** The sender's invariant survives every operation, and queueing never fails. */
module SenderInvariant {
  import opened Primitives
  import opened HeaderCodec
  import opened HeaderReading
  import opened Subpackets
  import opened FileMetadata
  import opened SenderSpec

  // ---------------------------------------------------------------------
  // Everything queued fits the outgoing buffer
  // ---------------------------------------------------------------------

  lemma OneMsg(m: Msg)
    ensures WireOf([m]) == MsgBytes(m)
  {
    hide MsgBytes;
    assert [m][1..] == [];
    assert MsgBytes(m) + [] == MsgBytes(m);
  }

  lemma NoMsgs()
    ensures WireOf([]) == []
  {
  }

  lemma TwoMsgs(a: Msg, b: Msg)
    ensures WireOf([a, b]) == MsgBytes(a) + MsgBytes(b)
  {
    hide MsgBytes, WireOf;
    assert [a, b] == [a] + [b];
    OneMsg(b);
    WireOfCons(a, [b]);
  }

  lemma WireOfCons(a: Msg, rest: seq<Msg>)
    ensures WireOf([a] + rest) == MsgBytes(a) + WireOf(rest)
  {
    assert ([a] + rest)[1..] == rest;
  }

  lemma HeadFits(h: Header)
    ensures 0 < |WireOf([Head(h)])| <= 21
  {
    hide EncHeader, WireOf;
    OneMsg(Head(h));
    HeaderSize(h);
  }

  lemma OverFits()
    ensures WireOf([Over]) == OO
  {
    OneMsg(Over);
  }

  lemma DataFits(offset: u32, data: seq<byte>, kind: SubpacketType, header: bool)
    requires |data| <= SUBPACKET_MAX_SIZE
    ensures 0 < |WireOf(DataFrame(offset, data, kind, header))| <= 21 + 2 * SUBPACKET_MAX_SIZE + 2 + 8
  {
    hide EncHeader, WireOf, Sealed, Header.WithCount;
    var h := ZDATA_HEADER.WithCount(offset);
    var d := Data(Sealed(ZBIN32, kind, data));
    DataSize(kind, data);
    if header {
      TwoMsgs(Head(h), d);
      HeaderSize(h);
      assert DataFrame(offset, data, kind, header) == [Head(h), d];
    } else {
      OneMsg(d);
      assert DataFrame(offset, data, kind, header) == [d];
    }
  }

  lemma DataSize(kind: SubpacketType, data: seq<byte>)
    ensures 0 < |MsgBytes(Data(Sealed(ZBIN32, kind, data)))| <= 2 * |data| + 2 + 8
  {
    SubpacketSize(ZBIN32, kind, data);
  }

  lemma ZfileFits(name: seq<byte>, size: u32)
    requires |name| <= NAME_CAP
    ensures 0 < |WireOf(ZfileFrame(name, size))| <= WIRE_BUF_SIZE
    ensures |Metadata(name, size)| <= SUBPACKET_MAX_SIZE
  {
    hide EncHeader, WireOf, Sealed, Metadata;
    MetadataSize(name, size);
    DataSize(ZCRCW, Metadata(name, size));
    HeaderSize(ZFILE_HEADER);
    TwoMsgs(Head(ZFILE_HEADER), Data(Sealed(ZBIN32, ZCRCW, Metadata(name, size))));
  }

  // ---------------------------------------------------------------------
  // Operations
  // ---------------------------------------------------------------------

  lemma InitialInv()
    ensures Inv(Initial())
  {
    hide WireOf, DivCeil;
    HeadFits(ZRQINIT_HEADER);
  }

  lemma QueueInv(t: TxState, ms: seq<Msg>)
    requires Inv(t) && t.out == [] && ms != [] && 0 < |WireOf(ms)| <= WIRE_BUF_SIZE
    ensures Queue(t, ms) == Done(t.(out := ms, sent := 0)) && Inv(Queue(t, ms).tx)
  {
    hide WireOf, DivCeil;
  }

  lemma QueueHeadInv(t: TxState, h: Header)
    requires Inv(t) && t.out == []
    ensures Queue(t, [Head(h)]) == Done(t.(out := [Head(h)], sent := 0)) && Inv(Queue(t, [Head(h)]).tx)
  {
    hide Inv, WireOf, Queue;
    HeadFits(h);
    QueueInv(t, [Head(h)]);
  }

  lemma CapsPositive(bufferLen: nat, overlap: bool, window: nat)
    requires 1 <= window
    ensures 1 <= MaxSubpacketFor(bufferLen) <= SUBPACKET_MAX_SIZE && 1 <= PerAckFor(bufferLen, overlap, window)
  {
  }

  lemma UpdateCapsInv(t: TxState, h: Header)
    requires Inv(t) && t.request.None?
    ensures Inv(UpdateCaps(t, h))
  {
    hide WireOf, MaxSubpacketFor, PerAckFor;
    CapsPositive(BufferLenOf(h), OverlapOf(h), t.window);
  }

  /** The quotient is the one number that fits. */
  lemma QuotientIs(a: nat, b: nat, q: nat, r: nat)
    requires b > 0 && a == q * b + r && r < b
    ensures a / b == q
  {
    var d := a / b - q;
    assert d * b == r - a % b by {
      assert a == (a / b) * b + a % b;
      assert d * b == (a / b) * b - q * b;
    }
    Multiple(d, b);
  }

  lemma Multiple(d: int, b: int)
    requires b > 0
    ensures d >= 1 ==> d * b >= b
    ensures d <= -1 ==> d * b <= -b
  {
  }

  lemma DivCeilPositive(a: nat, b: nat)
    requires a > 0 && b > 0
    ensures 1 <= DivCeil(a, b)
    ensures a > b ==> DivCeil(a, b) == DivCeil(a - b, b) + 1
  {
    var x := a - 1;
    var q := x / b;
    assert x == q * b + x % b;
    assert x + b == (q + 1) * b + x % b;
    QuotientIs(x + b, b, q + 1, x % b);
  }

  lemma OnZrposInv(t: TxState, offset: u32)
    requires Inv(t) && t.out == []
    ensures OnZrpos(t, offset).Done? && Inv(OnZrpos(t, offset).tx)
  {
    hide WireOf, DivCeil, Header.WithCount;
    HeadFits(ZRQINIT_HEADER);
    HeadFits(ZEOF_HEADER.WithCount(offset));
    if offset < t.fileSize {
      DivCeilPositive(t.fileSize - offset, t.maxSubpacket);
    }
  }

  lemma EndSessionInv(t: TxState)
    requires Inv(t) && t.out == [] && t.request.None?
    ensures EndSession(t).Done? && Inv(EndSession(t).tx)
  {
    hide WireOf, DivCeil;
    OverFits();
  }

  lemma OnZrinitInv(t: TxState, h: Header)
    requires Inv(t) && !t.Blocked()
    ensures OnZrinit(t, h).Done? && Inv(OnZrinit(t, h).tx)
  {
    hide WireOf, UpdateCaps, EndSession, ZfileFrame;
    UpdateCapsInv(t, h);
    var c := UpdateCaps(t, h);
    CapsOnly(t, h);
    EndSessionInv(c);
    ZfileFits(t.fileName, t.fileSize);
    HeadFits(ZFIN_HEADER);
  }

  /** A capability update leaves everything else alone. */
  lemma CapsOnly(t: TxState, h: Header)
    ensures
      var c := UpdateCaps(t, h);
      c == t.(nonstop := c.nonstop, maxSubpacket := c.maxSubpacket, perAck := c.perAck)
  {
  }

  lemma ZskipInv(t: TxState)
    requires Inv(t)
    ensures Inv(OnZskip(t))
  {
    hide WireOf, DivCeil;
  }

  lemma HandleHeaderInv(t: TxState, h: Header)
    requires Inv(t) && !t.Blocked()
    ensures HandleHeader(t, h).Done? && Inv(HandleHeader(t, h).tx)
  {
    hide WireOf, OnZrinit, OnZrpos, EndSession, OnZskip, Abort, Queue, Header.Count;
    ZskipInv(t);
    AbortInv(t);
    QueueHeadInv(t, ZRQINIT_HEADER);
    OnZrinitInv(t, h);
    OnZrposInv(t, h.Count());
    EndSessionInv(t);
  }

  /** No wire byte breaks the invariant, not even one that reports an error. */
  lemma TakeByteInv(t: TxState, b: byte)
    requires Inv(t) && !t.Blocked()
    ensures Inv(TakeByte(t, b).tx)
    ensures TakeByte(t, b).Refused? ==> !Misuse(TakeByte(t, b).error)
  {
    hide Inv, ReadStep, HandleHeader, Queue;
    FailureKind(t.reader, b);
    var s := ReadStep(t.reader, b);
    var u := t.(reader := s.reader);
    ReaderInv(t, s.reader);
    QueueHeadInv(u, ZNAK_HEADER);
    if s.outcome.Got? {
      HandleHeaderInv(u, s.outcome.header);
    }
  }

  lemma ReaderInv(t: TxState, r: Reader)
    requires Inv(t)
    ensures r.Wf() ==> Inv(t.(reader := r))
    ensures t.reader.Wf()
  {
    hide WireOf, DivCeil;
  }

  lemma {:induction false} FeedInv(t: TxState, wire: seq<byte>)
    requires Inv(t)
    ensures Inv(Feed(t, wire).tx)
    ensures Feed(t, wire).Broken? ==> !Misuse(Feed(t, wire).error)
    decreases |wire|
  {
    hide TakeByte, Inv;
    if wire != [] && !t.Blocked() {
      TakeByteInv(t, wire[0]);
      var p := TakeByte(t, wire[0]);
      if p.Done? {
        FeedInv(p.tx, wire[1..]);
      }
    }
  }

  // ---------------------------------------------------------------------
  // The caller's operations
  // ---------------------------------------------------------------------

  /** File data is refused only when it does not fit the request or something
      still waits to go out, and then nothing changes. */
  lemma SubmitFileInv(t: TxState, data: seq<byte>)
    requires Inv(t)
    ensures Inv(SubmitFile(t, data).tx)
    ensures SubmitFile(t, data).Refused? ==> SubmitFile(t, data).tx == t
    ensures t.request.Some? && t.out == [] ==>
              (SubmitFile(t, data).Done? <==> 0 < |data| <= t.request.value.len)
  {
    hide WireOf, DivCeil, DataFrame, Emit;
    if t.request.Some? && 0 < |data| <= t.request.value.len {
      EmitInv(t, data);
    }
  }

  lemma EmitInv(t: TxState, data: seq<byte>)
    requires Inv(t) && t.request.Some? && 0 < |data| <= t.request.value.len
    ensures Inv(Emit(t, data).tx)
    ensures Emit(t, data).Refused? ==> Emit(t, data).tx == t && t.out != []
    ensures Emit(t, data).Done? ==> t.out == []
  {
    hide WireOf, DivCeil, DataFrame;
    var r := t.request.value;
    var last := ClosesFrame(t, data);
    DataFits(r.offset, data, if last then ZCRCW else ZCRCG, t.needsHeader);
    assert DataFrame(r.offset, data, if last then ZCRCW else ZCRCG, t.needsHeader) != [] by {
      FrameNotEmpty(r.offset, data, if last then ZCRCW else ZCRCG, t.needsHeader);
    }
    if !last {
      DivCeilPositive(t.fileSize - r.offset, t.maxSubpacket);
    }
  }

  lemma FrameNotEmpty(offset: u32, data: seq<byte>, kind: SubpacketType, header: bool)
    ensures DataFrame(offset, data, kind, header) != []
  {
  }

  lemma StartFileInv(t: TxState, name: seq<byte>, size: Option<u32>)
    requires Inv(t)
    ensures Inv(StartFile(t, name, size).tx)
    ensures t.out == [] && (t.phase == WaitReceiverInit || t.phase == ReadyForFile) ==>
              (StartFile(t, name, size).Done? <==> size.Some? && |name| <= NAME_CAP)
  {
    hide WireOf, ZfileFrame;
    if |name| <= NAME_CAP && size.Some? {
      ZfileFits(name, size.value);
    }
  }

  lemma FinishInv(t: TxState)
    requires Inv(t)
    ensures Inv(Finish(t).tx) && (t.out == [] ==> Finish(t).Done?)
  {
    hide WireOf, DivCeil;
    HeadFits(ZFIN_HEADER);
  }

  lemma SetStreamingWindowInv(t: TxState, n: nat)
    requires Inv(t)
    ensures Inv(SetStreamingWindow(t, n))
  {
    hide WireOf, DivCeil;
  }

  lemma WireWrittenInv(t: TxState, n: nat)
    requires Inv(t)
    ensures Inv(WireWritten(t, n))
  {
    hide WireOf, DivCeil;
    NoMsgs();
  }

  lemma PopEventInv(t: TxState)
    requires Inv(t)
    ensures Inv(PopEvent(t))
  {
    hide WireOf, DivCeil;
  }

  lemma TimeoutInv(t: TxState)
    requires Inv(t)
    ensures Timeout(t).Done? && Inv(Timeout(t).tx)
  {
    hide WireOf, DivCeil;
    HeadFits(ZRQINIT_HEADER);
  }

  lemma AbortInv(t: TxState)
    requires Inv(t)
    ensures Inv(Abort(t))
  {
    hide WireOf, DivCeil;
  }
}
