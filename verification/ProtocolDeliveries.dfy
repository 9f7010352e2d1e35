/** What each frame of a transfer does to the side that receives it, down from its
    bytes. */
module ProtocolDeliveries {
  import opened Primitives
  import opened Zdle
  import opened HeaderCodec
  import opened HeaderReading
  import opened HeaderOutcomes
  import opened Subpackets
  import opened FileMetadata
  import opened Protocol
  import Tx = SenderSpec
  import Rx = ReceiverSpec
  import TxFrames = SenderFrames
  import RxFrames = ReceiverFrames

  // ---------------------------------------------------------------------
  // Down to the receiver
  // ---------------------------------------------------------------------

  /** Ready for a header, with nothing on offer. */
  predicate Hears(r: Rx.RxState)
  {
    r.CanRead() && !r.InSubpacket() && r.reader.scan.Seeking? && r.out.None? && r.events == []
  }

  function Answered(r: Rx.RxState, h: Header): Rx.RxState
  {
    r.(out := Some(h), sent := 0)
  }

  lemma ZrqinitHeard(r: Rx.RxState)
    requires Hears(r) && r.phase == Rx.SessionBegin
    ensures Rx.Feed(r, HeaderCore(ZRQINIT_HEADER)) == Rx.Fed.Fed(Answered(r.(reader := FRESH), Zrinit(r)))
  {
    hide Rx.Feed, HeaderCore, Rx.ZrinitHeader;
    RxFrames.HeaderFed(r, ZRQINIT_HEADER);
  }

  lemma ZfileHeard(r: Rx.RxState)
    requires Hears(r) && (r.phase == Rx.SessionBegin || r.phase == Rx.FileBegin)
    ensures Rx.Feed(r, HeaderCore(ZFILE_HEADER)) ==
            Rx.Fed.Fed(r.(reader := FRESH).Cleared().(encoding := ZBIN32, phase := Rx.FileReadingMetadata, sub := Rx.Reading))
  {
    hide Rx.Feed, HeaderCore;
    RxFrames.HeaderFed(r, ZFILE_HEADER);
  }

  lemma ZdataHeard(r: Rx.RxState)
    requires Hears(r) && Waiting(r)
    ensures Rx.Feed(r, HeaderCore(ZDATA_HEADER.WithCount(r.count))) ==
            Rx.Fed.Fed(r.(reader := FRESH).Cleared().(encoding := ZBIN32, phase := Rx.FileReadingSubpacket, sub := Rx.Reading))
  {
    hide Rx.Feed, HeaderCore, FromLe, LeBytes;
    var h := ZDATA_HEADER.WithCount(r.count);
    CountRoundTrip(ZDATA_HEADER, r.count);
    RxFrames.HeaderFed(r, h);
  }

  lemma ZeofHeard(r: Rx.RxState)
    requires Hears(r) && Waiting(r)
    ensures Rx.Feed(r, HeaderCore(ZEOF_HEADER.WithCount(r.count))) ==
            Rx.Fed.Fed(Answered(r.(reader := FRESH, phase := Rx.FileBegin, active := false, events := [Rx.FileComplete]), Zrinit(r)))
  {
    hide Rx.Feed, HeaderCore, FromLe, LeBytes, Rx.ZrinitHeader;
    var h := ZEOF_HEADER.WithCount(r.count);
    CountRoundTrip(ZEOF_HEADER, r.count);
    RxFrames.HeaderFed(r, h);
    assert [] + [Rx.FileComplete] == [Rx.FileComplete];
  }

  lemma ZfinHeard(r: Rx.RxState)
    requires Hears(r) && r.phase == Rx.FileBegin
    ensures Rx.Feed(r, HeaderCore(ZFIN_HEADER)) ==
            Rx.Fed.Fed(Answered(r.(reader := FRESH, phase := Rx.SessionEnd, events := [Rx.SessionComplete]), ZFIN_HEADER))
  {
    hide Rx.Feed, HeaderCore, FromLe;
    RxFrames.HeaderFed(r, ZFIN_HEADER);
    assert [] + [Rx.SessionComplete] == [Rx.SessionComplete];
  }

  /** Bytes that change nothing but the reader, which goes on seeking. */
  predicate OnlyReads(r: Rx.RxState, r': Rx.RxState)
  {
    && r' == r.(reader := r'.reader) && r'.reader.scan.Seeking? && r'.reader.resyncing == r.reader.resyncing
  }

  lemma OverHeard(r: Rx.RxState)
    requires Hears(r)
    ensures
      var f := Rx.Feed(r, Tx.OO);
      f.Fed? && OnlyReads(r, f.rx)
  {
    hide Rx.Feed;
    GapSkipped(r.reader, Tx.OO);
    RxFrames.ReaderFed(r, Tx.OO);
  }

  lemma StrayHeard(r: Rx.RxState, sub: SubWire)
    requires Hears(r) && r.reader.resyncing
    ensures
      var f := Rx.Feed(r, sub.Bytes());
      f.Fed? && OnlyReads(r, f.rx)
  {
    hide Rx.Feed, NoFakeHeader, ReadChunk;
    SubpacketStray(sub);
    RxFrames.StrayFed(r, sub.Bytes());
  }

  /** Ready for the first byte of a subpacket. */
  predicate Listens(r: Rx.RxState)
  {
    && r.CanRead() && r.InSubpacket() && r.sub.Reading? && r.buf == [] && !r.escapePending
    && r.encoding == ZBIN32 && r.out.None? && r.events == [] && Rx.Checked(r)
  }

  lemma ListensReads(r: Rx.RxState)
    requires Listens(r)
    ensures RxFrames.Reads(r)
  {
  }

  /** The file is announced; it is asked for from its start, or its caller decides. */
  function Introduced(r: Rx.RxState, f: File): Rx.RxState
    requires Sendable(f)
  {
    var t := r.Cleared().(
      fileName := f.name, fileSize := |f.content|, count := 0, sub := Rx.Resting, events := [Rx.FileStart]);
    if r.manual then t.(phase := Rx.FileAcceptPending)
    else Answered(t.(phase := Rx.FileBegin, active := true), Zrpos(0))
  }

  lemma MetadataHeard(r: Rx.RxState, f: File)
    requires Listens(r) && r.phase == Rx.FileReadingMetadata && Sendable(f)
    ensures Rx.Feed(r, Sealed(ZBIN32, ZCRCW, Metadata(f.name, |f.content|)).Bytes()) == Rx.Fed.Fed(Introduced(r, f))
  {
    hide Rx.Feed, Rx.Checked, RxFrames.Reads, Metadata, Rx.CompleteSubpacket, Header.WithCount, Sealed;
    var m := Sealed(ZBIN32, ZCRCW, Metadata(f.name, |f.content|));
    SealedShape(ZCRCW, Metadata(f.name, |f.content|));
    ListensReads(r);
    MetadataSize(f.name, |f.content|);
    RxFrames.SubpacketFed(r, m);
    MetadataDone(RxFrames.Received(r, m), f);
    ReceivedShape(r, m);
  }

  lemma SealedShape(kind: SubpacketType, data: seq<byte>)
    ensures
      var m := Sealed(ZBIN32, kind, data);
      m.data == data && m.kind == kind && |m.sum| == CrcLen(ZBIN32) && m.Intact(ZBIN32)
  {
  }

  /** A received subpacket touches the staged data and the checksum only. */
  lemma ReceivedShape(r: Rx.RxState, m: SubWire)
    requires r.buf == [] && r.sub.Reading?
    ensures
      var t := RxFrames.Received(r, m);
      t == r.(buf := m.data, crc := t.crc, sub := Rx.Trailer(m.kind))
  {
    assert [] + m.data == m.data;
  }

  lemma MetadataDone(t: Rx.RxState, f: File)
    requires t.phase == Rx.FileReadingMetadata && t.out.None? && t.events == []
    requires Sendable(f) && t.buf == Metadata(f.name, |f.content|)
    ensures Rx.CompleteSubpacket(t, ZCRCW) == Rx.Done(Introduced(t, f))
  {
    hide Rx.ParseZfile, Header.WithCount;
    MetadataParsed(t, f);
    assert [] + [Rx.FileStart] == [Rx.FileStart];
  }

  lemma MetadataParsed(t: Rx.RxState, f: File)
    requires Sendable(f) && t.buf == Metadata(f.name, |f.content|)
    ensures Rx.ParseZfile(t) == Rx.Done(t.(fileName := f.name, fileSize := |f.content|, count := 0))
  {
    hide ParseInfo;
    WrittenMetadataParses(f.name, |f.content|);
    var size := |f.content|;
    assert Metadata(f.name, size) == f.name + ([NUL] + Decimal(size) + [NUL]);
    FieldIs(f.name, NUL, [NUL] + Decimal(size) + [NUL]);
  }

  /** A whole subpacket of data: it goes on offer. */
  lemma DataHeard(r: Rx.RxState, m: SubWire)
    requires Listens(r) && r.phase == Rx.FileReadingSubpacket
    requires 1 <= |m.data| <= SUBPACKET_MAX_SIZE && m == Sealed(ZBIN32, m.kind, m.data)
    ensures
      var f := Rx.Feed(r, m.Bytes());
      f.Fed? && f.rx == r.(buf := m.data, crc := f.rx.crc, sub := Rx.Writing(m.kind), written := 0)
  {
    hide Rx.Feed, Rx.Checked, RxFrames.Reads, Sealed, Rx.FinishSubpacket;
    SealedShape(m.kind, m.data);
    ListensReads(r);
    RxFrames.SubpacketFed(r, m);
    ReceivedShape(r, m);
  }

  /** A damaged one: the receiver asks for a rewind and resynchronises. */
  lemma DamageHeard(r: Rx.RxState, m: SubWire)
    requires Listens(r) && r.phase == Rx.FileReadingSubpacket && Damaged(m) && r.retries < Rx.MAX_ZRPOS_RETRIES
    ensures
      var t := r.(retries := r.retries + 1, written := 0, crc := NO_CRC);
      Rx.Feed(r, m.Bytes()) ==
      Rx.Fed.Fed(Answered(
        t.(phase := Rx.FileWaitingSubpacket, sub := Rx.Resting, reader := r.reader.(resyncing := true)), Zrpos(r.count)))
  {
    hide Rx.Feed, Rx.Checked, RxFrames.Reads, Header.WithCount, Rx.Recover, SubWire.Bytes, SubWire.Intact;
    ListensReads(r);
    RxFrames.SubpacketFed(r, m);
    ReceivedShape(r, m);
    RecoverDone(RxFrames.Received(r, m), UnexpectedCrc32);
  }

  lemma RecoverDone(r: Rx.RxState, e: Error)
    requires r.out.None? && r.retries < Rx.MAX_ZRPOS_RETRIES
    ensures
      var t := r.Cleared().(retries := r.retries + 1);
      Rx.Recover(r, e) ==
      Rx.Done(Answered(
        t.(phase := Rx.FileWaitingSubpacket, sub := Rx.Resting, reader := r.reader.(resyncing := true)), Zrpos(r.count)))
  {
    hide Header.WithCount;
  }

  /** Persisting the last of a subpacket: the next one, or an answer. */
  lemma DataPersisted(r: Rx.RxState, n: nat)
    requires r.phase == Rx.FileReadingSubpacket && r.sub.Writing? && r.out.None? && r.written < |r.buf|
    requires n == |r.buf| - r.written && r.count + |r.buf| <= Rx.MAX_COUNT
    requires r.sub.kind == ZCRCW || r.sub.kind == ZCRCG
    ensures
      var t := r.Cleared().(count := r.count + |r.buf|, retries := 0);
      Rx.FileWritten(r, n).rx ==
      if r.sub.kind == ZCRCG then t.(sub := Rx.Reading)
      else Answered(t.(phase := Rx.FileWaitingSubpacket, sub := Rx.Resting), Zack(t.count))
  {
    hide Header.WithCount;
  }

  lemma DataPersistedInPart(r: Rx.RxState, n: nat)
    requires r.sub.Writing? && r.written + n < |r.buf|
    ensures Rx.FileWritten(r, n).rx == r.(written := r.written + n)
  {
    hide Rx.FinishSubpacket;
  }

  // ---------------------------------------------------------------------
  // Up to the sender
  // ---------------------------------------------------------------------

  /** States that differ in pacing only. */
  predicate Alike(s: Tx.TxState, t: Tx.TxState)
  {
    t == s.(nonstop := t.nonstop, maxSubpacket := t.maxSubpacket, perAck := t.perAck)
  }

  /** What a ZRINIT makes of the sender, but for its pacing: it says something in
      three phases and nothing in the others. */
  function Initiated(s: Tx.TxState): Tx.TxState
  {
    if s.phase == Tx.WaitReceiverInit then
      s.(out := Tx.ZfileFrame(s.fileName, s.fileSize), sent := 0, phase := Tx.WaitFilePos)
    else if s.phase == Tx.WaitFileDone then
      s.(event := Some(Tx.FileCompleted), hasFile := false, phase := Tx.ReadyForFile)
    else if s.phase == Tx.WaitFinish then Ended(s)
    else s
  }

  function Ended(s: Tx.TxState): Tx.TxState
  {
    s.(out := [Tx.Over], sent := 0, phase := Tx.Finished, event := Some(Tx.SessionCompleted))
  }

  lemma ZrinitTold(s: Tx.TxState, r: Rx.RxState)
    requires !s.Blocked() && s.reader == FRESH && (s.finishRequested ==> s.phase == Tx.WaitFinish)
    requires s.phase == Tx.WaitReceiverInit ==> s.hasFile
    ensures
      var f := Tx.Feed(s, HeaderCore(Zrinit(r)));
      f.Fed? && Alike(Initiated(s), f.tx)
  {
    hide Tx.Feed, HeaderCore, Tx.UpdateCaps, Tx.ZfileFrame;
    TxFrames.HeaderFed(s, Zrinit(r));
    assert s.(reader := FRESH) == s;
    CapsAlike(s, Zrinit(r));
  }

  lemma CapsAlike(s: Tx.TxState, h: Header)
    ensures Alike(s, Tx.UpdateCaps(s, h))
  {
  }

  /** A position within the file opens a frame there; the end of it ends the file. */
  lemma PositionTold(s: Tx.TxState, h: Header, offset: u32)
    requires !s.Blocked() && s.reader == FRESH && (s.phase == Tx.WaitFilePos || s.phase == Tx.WaitFileAck)
    requires h == Zrpos(offset) || h == Zack(offset)
    ensures Tx.Feed(s, HeaderCore(h)) ==
            Tx.Fed.Fed(
              if offset < s.fileSize then Tx.OpenFrame(s, offset)
              else s.(out := [ZeofMsg(offset)], sent := 0, phase := Tx.WaitFileDone))
  {
    hide Tx.Feed, HeaderCore, FromLe, LeBytes, Tx.OpenFrame;
    CountRoundTrip(ZRPOS_HEADER, offset);
    CountRoundTrip(ZACK_HEADER, offset);
    TxFrames.HeaderFed(s, h);
    assert s.(reader := FRESH) == s;
    assert s.(request := None) == s;
  }

  lemma ZfinTold(s: Tx.TxState)
    requires !s.Blocked() && s.reader == FRESH && s.phase == Tx.WaitFinish
    ensures Tx.Feed(s, HeaderCore(ZFIN_HEADER)) == Tx.Fed.Fed(Ended(s))
  {
    hide Tx.Feed, HeaderCore, FromLe;
    TxFrames.HeaderFed(s, ZFIN_HEADER);
    assert s.(reader := FRESH) == s;
  }

  lemma ZskipTold(s: Tx.TxState)
    requires !s.Blocked() && s.reader == FRESH && s.phase == Tx.WaitFilePos
    ensures Tx.Feed(s, HeaderCore(Rx.ZSKIP_HEADER)) ==
            Tx.Fed.Fed(s.(hasFile := false, frameRemaining := 0, event := Some(Tx.FileCompleted), phase := Tx.ReadyForFile))
  {
    hide Tx.Feed, HeaderCore, FromLe;
    TxFrames.HeaderFed(s, Rx.ZSKIP_HEADER);
    assert s.(reader := FRESH) == s;
    assert s.(request := None) == s;
  }

  // ---------------------------------------------------------------------
  // Line endings
  // ---------------------------------------------------------------------

  /** The line ending behind a hex header changes nothing on either side, so a
      header can be delivered without it. */
  lemma EndingSkipped(r: Rx.RxState, s: Tx.TxState, h: Header)
    requires r.CanRead() && !r.InSubpacket() && r.reader == FRESH
    requires !s.Blocked() && s.reader == FRESH
    ensures Rx.Feed(r, Ending(h)) == Rx.Fed.Fed(r)
    ensures Tx.Feed(s, Ending(h)) == Tx.Fed.Fed(s)
  {
    hide Rx.Feed, Tx.Feed, ReadChunk, Decoded;
    var e := Ending(h);
    EndingRead(h);
    RxFrames.ReaderFed(r, e);
    TxFrames.ReaderFed(s, e);
    assert r.(reader := FRESH) == r && s.(reader := FRESH) == s;
  }
}
