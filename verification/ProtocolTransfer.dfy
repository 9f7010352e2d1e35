/** The data of a file on its way down: read by the sender, taken or lost by the
    receiver, persisted by its caller. */
module ProtocolTransfer {
  import opened Primitives
  import opened HeaderCodec
  import opened HeaderReading
  import opened Subpackets
  import opened FileMetadata
  import opened Protocol
  import opened ProtocolDeliveries
  import opened ProtocolDown
  import Tx = SenderSpec
  import Rx = ReceiverSpec

  /** The sender is in a data transfer. */
  predicate Busy(z: Sys)
  {
    z.s.phase == Tx.NeedFileData || z.s.phase == Tx.WaitFileAck
  }

  /** A lawful state in a data transfer, spelt out. */
  predicate Flowing(z: Sys)
  {
    Busy(z) && 1 <= z.next <= |z.files| && Sendable(z.Current()) && Common(z) && Transferring(z)
  }

  lemma FlowingIsLawful(z: Sys)
    ensures Busy(z) ==> (Flowing(z) <==> Lawful(z))
  {
    hide Common, Transferring, Sendable;
  }

  // ---------------------------------------------------------------------
  // Subpackets that arrive
  // ---------------------------------------------------------------------

  lemma FirstOf(ms: seq<Tx.Msg>, k: nat)
    requires 0 < k <= |ms|
    ensures ms[1..][..k - 1] == ms[..k][1..] && ms[1..][k - 1..] == ms[k..]
    ensures AllData(ms[..k]) ==> ms[0].Data? && AllData(ms[1..][..k - 1])
  {
    if AllData(ms[..k]) {
      assert ms[..k][0] == ms[0];
      var rest := ms[1..][..k - 1];
      forall i | 0 <= i < |rest|
        ensures rest[i].Data?
      {
        assert rest[i] == ms[..k][i + 1];
      }
    }
  }

  /** Left-over subpackets are skipped. */
  lemma StrayLands(z: Sys, sub: SubWire)
    requires Ripe(z) && Busy(z) && z.r.phase != Rx.FileReadingSubpacket && z.stray > 0
    ensures z.down[0].Data? && Lands(z, Rx.Feed(z.r, sub.Bytes())) && Rx.Feed(z.r, sub.Bytes()).rx.events == []
  {
    hide Rx.Feed, Lands, Lawful, SubWire.Bytes, Common, Transferring, Flowing;
    FlowingIsLawful(z);
    StrayDue(z);
    StrayHeard(z.r, sub);
    StrayTaken(z, Rx.Feed(z.r, sub.Bytes()));
  }

  lemma StrayDue(z: Sys)
    requires Ripe(z) && Flowing(z) && z.r.phase != Rx.FileReadingSubpacket && z.stray > 0
    ensures Hears(z.r) && z.r.reader.resyncing && z.down[0].Data? && z.r.sub.Resting?
  {
    hide Rx.Inv, Lawful, Common, Header.WithCount, Rx.ZrinitHeader, Chain, AllData, Filed, Stale, Closed, Persisting, Sending;
    FirstOf(z.down, z.stray);
  }

  lemma StrayTaken(z: Sys, f: Rx.Fed)
    requires Flowing(z) && z.r.phase != Rx.FileReadingSubpacket && z.stray > 0 && z.down != [] && z.r.out.None?
    requires z.r.events == [] && z.r.sent == 0 && z.r.sub.Resting? && z.down[0].Data?
    requires f.Fed? && OnlyReads(z.r, f.rx)
    ensures Lands(z, f)
  {
    hide Header.WithCount, Rx.ZrinitHeader, Chain, AllData, Filed, Stale, Closed, Persisting, Sending, Sendable, Begun;
    hide Lawful, Awaiting;
    StrayAwaiting(z, f.rx);
    assert z.up + [] == z.up;
    PersistingSame(z, Landed(z, f.rx));
    FlowingIsLawful(Landed(z, f.rx));
  }

  lemma PersistingSame(z: Sys, t: Sys)
    requires 1 <= z.next <= |z.files| && t.files == z.files && t.next == z.next && t.start == z.start
    requires t.persisted == z.persisted && t.r.count == z.r.count && !z.r.sub.Writing? && !t.r.sub.Writing?
    ensures Persisting(z) <==> Persisting(t)
  {
  }

  lemma StrayAwaiting(z: Sys, r': Rx.RxState)
    requires 1 <= z.next <= |z.files| && Awaiting(z) && z.stray > 0 && z.r.out.None? && OnlyReads(z.r, r')
    ensures z.down != [] && Awaiting(Landed(z, r'))
  {
    hide Header.WithCount, Rx.ZrinitHeader, Chain, AllData, Stale, Closed;
    FirstOf(z.down, z.stray);
    assert z.up + [] == z.up;
  }

  /** A frame opens where the receiver waits. */
  lemma ZdataLands(z: Sys)
    requires Ripe(z) && Busy(z) && z.r.phase != Rx.FileReadingSubpacket && z.stray == 0
    ensures Lands(z, Rx.Feed(z.r, Item(z.down[0])))
  {
    hide Rx.Feed, Lawful, Lands, HeaderCore, Header.WithCount, Common, Transferring, Flowing;
    FlowingIsLawful(z);
    ZdataDue(z);
    ZdataHeard(z.r);
    ZdataTaken(z, Rx.Feed(z.r, Item(z.down[0])));
  }

  lemma ZdataDue(z: Sys)
    requires Ripe(z) && Flowing(z) && z.r.phase != Rx.FileReadingSubpacket && z.stray == 0
    ensures Hears(z.r) && Waiting(z.r) && z.r.sub.Resting?
    ensures z.down[0] == ZdataMsg(z.r.count)
    ensures Stale(z.up, Zrinit(z.r)) && !(z.s.phase == Tx.NeedFileData && z.s.needsHeader)
    ensures Chain(z.down[1..], z.Current().content, z.r.count, z.reach, z.s.phase == Tx.WaitFileAck)
  {
    hide Rx.Inv, Lawful, Common, Header.WithCount, Rx.ZrinitHeader, Chain, AllData, Filed, Stale, Closed, Persisting, Sending;
    assert z.down[0..] == z.down;
  }

  lemma ZdataTaken(z: Sys, f: Rx.Fed)
    requires Flowing(z) && z.r.phase != Rx.FileReadingSubpacket && z.stray == 0
    requires z.down != [] && z.r.out.None? && z.r.events == [] && z.r.sub.Resting? && z.r.sent == 0
    requires Stale(z.up, Zrinit(z.r)) && !(z.s.phase == Tx.NeedFileData && z.s.needsHeader)
    requires Chain(z.down[1..], z.Current().content, z.r.count, z.reach, z.s.phase == Tx.WaitFileAck)
    requires f == Rx.Fed.Fed(z.r.(reader := FRESH).Cleared().(
                    encoding := ZBIN32, phase := Rx.FileReadingSubpacket, sub := Rx.Reading))
    ensures Lands(z, f)
  {
    hide Header.WithCount, Rx.ZrinitHeader, Chain, AllData, Filed, Stale, Closed, Persisting, Sending, Sendable, Begun;
    hide Lawful, Awaiting;
    assert z.up + [] == z.up;
    PersistingSame(z, Landed(z, f.rx));
    FlowingIsLawful(Landed(z, f.rx));
  }

  /** A piece of the file goes on offer, the next byte to persist first. */
  lemma PieceLands(z: Sys)
    requires Ripe(z) && Busy(z) && z.r.phase == Rx.FileReadingSubpacket
    ensures z.down[0].Data? && Lands(z, Rx.Feed(z.r, Item(z.down[0])))
  {
    hide Rx.Feed, Header.WithCount, Sealed, Rx.Checked, SubWire.Bytes, Lawful, Lands, Chain, Transferring, Common;
    FlowingIsLawful(z);
    PieceDue(z);
    DataHeard(z.r, z.down[0].sub);
    PieceOffered(z, Rx.Feed(z.r, Item(z.down[0])));
  }

  /** The frame in front is the piece the receiver is due. */
  lemma PieceDue(z: Sys)
    requires Ripe(z) && Flowing(z) && z.r.phase == Rx.FileReadingSubpacket
    ensures Listens(z.r) && z.r.reader == FRESH
    ensures Piece(z.down[0], z.Current().content, z.r.count) && Follows(z, z.down[0].sub)
  {
    hide Rx.Checked, Sealed, Filed, Lawful, Common, Stale, Persisting, Sending, Rx.ZrinitHeader;
  }

  /** What comes after a piece. */
  predicate Follows(z: Sys, m: SubWire)
    requires 1 <= z.next <= |z.files| && z.down != []
  {
    var e, closed := z.r.count + |m.data|, z.s.phase == Tx.WaitFileAck;
    if m.kind == ZCRCW then z.down[1..] == [] && closed && z.reach == e
    else m.kind == ZCRCG && Chain(z.down[1..], z.Current().content, e, z.reach, closed)
  }

  lemma PieceOffered(z: Sys, f: Rx.Fed)
    requires Flowing(z) && z.r.phase == Rx.FileReadingSubpacket && z.r.sub.Reading? && z.r.sent == 0 && z.r.out.None?
    requires z.down != [] && Piece(z.down[0], z.Current().content, z.r.count) && Follows(z, z.down[0].sub)
    requires z.r.events == []
    requires
      var m := z.down[0].sub;
      f.Fed? && f.rx == z.r.(buf := m.data, crc := f.rx.crc, sub := Rx.Writing(m.kind), written := 0)
    ensures Lands(z, f)
  {
    hide Sealed, Chain, Filed, Sendable, Begun, Stale, Rx.ZrinitHeader, Lawful, Sending, Receiving, Piece;
    assert z.up + [] == z.up;
    PieceFits(z.down[0], z.Current().content, z.r.count);
    PieceReceived(z, f.rx);
    FlowingIsLawful(Landed(z, f.rx));
  }

  lemma PieceFits(m: Tx.Msg, content: seq<byte>, from: nat)
    requires Piece(m, content, from)
    ensures m.Data? && 1 <= |m.sub.data| && from + |m.sub.data| <= |content|
  {
  }

  lemma PieceReceived(z: Sys, r': Rx.RxState)
    requires 1 <= z.next <= |z.files| && z.r.count <= |z.Current().content| && Receiving(z) && z.r.sub.Reading?
    requires z.down != [] && Piece(z.down[0], z.Current().content, z.r.count) && Follows(z, z.down[0].sub) && z.r.out.None?
    requires
      var m := z.down[0].sub;
      r' == z.r.(buf := m.data, crc := r'.crc, sub := Rx.Writing(m.kind), written := 0)
    ensures Receiving(Landed(z, r'))
  {
    hide Sealed, Chain, Stale, Rx.ZrinitHeader;
    assert z.up + [] == z.up;
  }

  lemma TransferLands(z: Sys)
    requires Ripe(z) && Busy(z)
    ensures Lands(z, Rx.Feed(z.r, Item(z.down[0])))
  {
    hide Rx.Feed, Lawful, Lands, SubWire.Bytes, HeaderCore;
    if z.r.phase == Rx.FileReadingSubpacket {
      PieceLands(z);
    } else if z.stray > 0 {
      StrayLands(z, if z.down[0].Data? then z.down[0].sub else SubWire(ZCRCG, [], []));
    } else {
      ZdataLands(z);
    }
  }

  /** Every delivery to the receiver keeps what holds. */
  lemma DownLands(z: Sys)
    requires Ripe(z)
    ensures Lands(z, Rx.Feed(z.r, Item(z.down[0])))
  {
    hide Rx.Feed, Lawful, Lands, Item;
    match z.s.phase {
      case WaitReceiverInit => HelloLands(z);
      case WaitFilePos => OfferingLands(z);
      case NeedFileData => TransferLands(z);
      case WaitFileAck => TransferLands(z);
      case WaitFileDone => ClosingLands(z);
      case ReadyForFile => ReadyLands(z);
      case WaitFinish => LeavingLands(z);
      case Finished => LeftLands(z);
    }
  }

  // ---------------------------------------------------------------------
  // Damage on the way down
  // ---------------------------------------------------------------------

  /** A damaged subpacket has reached the receiver and left it at `r'`; everything
      behind it is left over unless it was left over itself. */
  function Spoilt(z: Sys, r': Rx.RxState): Sys
    requires z.down != []
  {
    Landed(z, r').(stray := if z.stray > 0 then z.stray - 1 else |z.down| - 1)
  }

  predicate Survives(z: Sys, f: Rx.Fed)
    requires z.down != []
  {
    f.Fed? && Lawful(Spoilt(z, f.rx)) && f.rx.events == []
  }

  lemma {:induction false} ChainData(ms: seq<Tx.Msg>, content: seq<byte>, from: nat, to: nat, closed: bool)
    requires Chain(ms, content, from, to, closed)
    ensures AllData(ms)
    decreases |ms|
  {
    hide Piece, Sealed;
    if ms != [] {
      PieceFits(ms[0], content, from);
      if ms[0].sub.kind == ZCRCG {
        ChainData(ms[1..], content, from + |ms[0].sub.data|, to, closed);
      }
      forall i | 0 <= i < |ms|
        ensures ms[i].Data?
      {
        assert i > 0 ==> ms[i] == ms[1..][i - 1];
      }
    }
  }

  /** The receiver gives up on the frame and asks for it from where it stands. */
  lemma DamageSurvived(z: Sys, sub: SubWire)
    requires Ripe(z) && Busy(z) && z.r.phase == Rx.FileReadingSubpacket && Damaged(sub)
    requires z.r.retries < Rx.MAX_ZRPOS_RETRIES
    ensures Survives(z, Rx.Feed(z.r, sub.Bytes()))
  {
    hide Rx.Feed, Header.WithCount, Sealed, SubWire.Bytes, SubWire.Intact, Lawful, Survives, Transferring, Common;
    hide Chain, Rx.Checked;
    FlowingIsLawful(z);
    PieceDue(z);
    RestIsData(z);
    PieceFits(z.down[0], z.Current().content, z.r.count);
    DamageHeard(z.r, sub);
    DamageTaken(z, Rx.Feed(z.r, sub.Bytes()));
  }

  lemma RestIsData(z: Sys)
    requires 1 <= z.next <= |z.files| && z.down != [] && z.down[0].Data? && Follows(z, z.down[0].sub)
    ensures AllData(z.down[1..])
  {
    hide Chain;
    if z.down[0].sub.kind != ZCRCW {
      ChainData(z.down[1..], z.Current().content, z.r.count + |z.down[0].sub.data|, z.reach, z.s.phase == Tx.WaitFileAck);
    }
  }

  lemma DamageTaken(z: Sys, f: Rx.Fed)
    requires Flowing(z) && z.r.phase == Rx.FileReadingSubpacket && z.r.sub.Reading? && z.r.reader == FRESH
    requires z.down != [] && z.r.count < |z.Current().content| && AllData(z.down[1..]) && z.r.events == []
    requires
      var t := z.r.(retries := z.r.retries + 1, written := 0, crc := NO_CRC);
      f == Rx.Fed.Fed(Answered(
        t.(phase := Rx.FileWaitingSubpacket, sub := Rx.Resting, reader := z.r.reader.(resyncing := true)), Zrpos(z.r.count)))
    ensures Survives(z, f)
  {
    hide Sealed, Chain, Header.WithCount, Filed, Sendable, Begun, Stale, Closed, Rx.ZrinitHeader, Lawful, Sending, AllData;
    hide Persisting;
    var rest := z.down[1..];
    assert rest[..|rest|] == rest;
    StaleMore(z.up, Zrinit(z.r), Zrpos(z.r.count));
    PersistingSame(z, Spoilt(z, f.rx));
    FlowingIsLawful(Spoilt(z, f.rx));
  }

  // ---------------------------------------------------------------------
  // Reading the file
  // ---------------------------------------------------------------------

  /** The caller has read `n` bytes of the file for a flat state. */
  function Fetched(z: Sys, n: nat): Sys
    requires 1 <= z.next <= |z.files| && z.s.request.Some?
  {
    var t := Read(z, n);
    t.(down := z.down + t.s.out, s := t.s.(out := [], sent := 0))
  }

  lemma {:induction false} ChainAppend(ms: seq<Tx.Msg>, content: seq<byte>, from: nat, to: nat, m: Tx.Msg)
    requires Chain(ms, content, from, to, false) && Piece(m, content, to)
    requires m.sub.kind == ZCRCW || m.sub.kind == ZCRCG
    ensures Chain(ms + [m], content, from, to + |m.sub.data|, m.sub.kind == ZCRCW)
    decreases |ms|
  {
    hide Sealed, Piece;
    PieceFits(m, content, to);
    if ms == [] {
      assert [] + [m] == [m] && [m][1..] == [];
    } else {
      PieceFits(ms[0], content, from);
      assert (ms + [m])[1..] == ms[1..] + [m];
      ChainAppend(ms[1..], content, from + |ms[0].sub.data|, to, m);
    }
  }

  /** What reading `n` bytes sends. */
  lemma ReadEmits(s: Tx.TxState, f: File, n: nat)
    requires Tx.Inv(s) && s.request.Some? && s.out == [] && 1 <= n <= s.request.value.len
    requires s.fileSize == |f.content|
    ensures
      var offset := s.request.value.offset;
      var data := Stretch(f, offset, n);
      var t := Tx.SubmitFile(s, data).tx;
      var kind := if t.phase == Tx.WaitFileAck then ZCRCW else ZCRCG;
      && offset + n <= |f.content| && data == f.content[offset..offset + n] && n <= SUBPACKET_MAX_SIZE
      && t.out == Tx.DataFrame(offset, data, kind, s.needsHeader)
      && !t.needsHeader && (t.phase == Tx.WaitFileAck || t.phase == Tx.NeedFileData)
      && (t.phase == Tx.NeedFileData ==> t.request.Some? && t.request.value.offset == offset + n)
      && t == s.(needsHeader := false, request := t.request, phase := t.phase, frameRemaining := t.frameRemaining,
                 out := t.out, sent := 0)
  {
    hide Tx.DataFrame, Tx.WireOf, Tx.DivCeil;
  }

  lemma OnePiece(f: File, offset: nat, n: nat, kind: SubpacketType)
    requires 1 <= n <= SUBPACKET_MAX_SIZE && offset + n <= |f.content|
    ensures
      var m := Tx.Data(Sealed(ZBIN32, kind, f.content[offset..offset + n]));
      Piece(m, f.content, offset) && m.sub.kind == kind && |m.sub.data| == n
  {
    hide Checksum;
  }

  /** The frame a read adds to. */
  lemma FrameParts(offset: u32, data: seq<byte>, kind: SubpacketType, header: bool)
    ensures Tx.DataFrame(offset, data, kind, header) ==
            if header then [ZdataMsg(offset), Tx.Data(Sealed(ZBIN32, kind, data))]
            else [Tx.Data(Sealed(ZBIN32, kind, data))]
  {
    hide Sealed, Header.WithCount;
  }

  /** The piece of the file that reading `n` bytes sends. */
  lemma ReadSends(s: Tx.TxState, f: File, n: nat) returns (m: Tx.Msg)
    requires Tx.Inv(s) && s.request.Some? && s.out == [] && 1 <= n <= s.request.value.len
    requires s.fileSize == |f.content|
    ensures
      var offset := s.request.value.offset;
      var t := Tx.SubmitFile(s, Stretch(f, offset, n)).tx;
      && n <= SUBPACKET_MAX_SIZE && Piece(m, f.content, offset) && m.Data? && |m.sub.data| == n
      && (t.phase == Tx.WaitFileAck || t.phase == Tx.NeedFileData)
      && m.sub.kind == (if t.phase == Tx.WaitFileAck then ZCRCW else ZCRCG)
      && t.out == (if s.needsHeader then [ZdataMsg(offset), m] else [m])
      && (t.phase == Tx.NeedFileData ==> t.request.Some? && t.request.value.offset == offset + n)
      && t == s.(needsHeader := false, request := t.request, phase := t.phase, frameRemaining := t.frameRemaining,
                 out := t.out, sent := 0)
  {
    hide Tx.SubmitFile, Tx.Inv, Tx.DataFrame, Piece, Sealed, Header.WithCount, Stretch;
    ReadEmits(s, f, n);
    var offset := s.request.value.offset;
    var t := Tx.SubmitFile(s, Stretch(f, offset, n)).tx;
    var kind := if t.phase == Tx.WaitFileAck then ZCRCW else ZCRCG;
    m := Tx.Data(Sealed(ZBIN32, kind, f.content[offset..offset + n]));
    OnePiece(f, offset, n, kind);
    FrameParts(offset, f.content[offset..offset + n], kind, s.needsHeader);
  }

  lemma FetchedKept(z: Sys, n: nat)
    requires Lawful(z) && Busy(z) && Tx.Inv(z.s) && z.s.request.Some? && z.s.out == []
    requires 1 <= n <= z.s.request.value.len && z.r.out.None?
    ensures Lawful(Fetched(z, n))
  {
    hide Tx.SubmitFile, Chain, Piece, Header.WithCount, Receiving, Awaiting, Stretch, Lawful, Filed, Begun, Persisting;
    hide Tx.WireOf, Tx.Requested;
    FlowingIsLawful(z);
    var m := ReadSends(z.s, z.Current(), n);
    FetchedTransfer(z, n, Tx.SubmitFile(z.s, Stretch(z.Current(), z.s.request.value.offset, n)).tx, m);
    FlowingIsLawful(Fetched(z, n));
  }

  lemma FetchedTransfer(z: Sys, n: nat, t: Tx.TxState, m: Tx.Msg)
    requires Flowing(z) && z.s.phase == Tx.NeedFileData && z.s.request.Some? && z.r.out.None?
    requires n <= SUBPACKET_MAX_SIZE && Piece(m, z.Current().content, z.reach) && |m.sub.data| == n
    requires t.phase == Tx.WaitFileAck || t.phase == Tx.NeedFileData
    requires m.sub.kind == if t.phase == Tx.WaitFileAck then ZCRCW else ZCRCG
    requires t.out == if z.s.needsHeader then [ZdataMsg(z.reach), m] else [m]
    requires t.phase == Tx.NeedFileData ==> t.request.Some? && t.request.value.offset == z.reach + n
    requires t == z.s.(needsHeader := false, request := t.request, phase := t.phase, frameRemaining := t.frameRemaining,
                       out := t.out, sent := 0)
    ensures
      Flowing(z.(down := z.down + t.out, s := t.(out := [], sent := 0), reach := z.reach + n,
                 stray := if z.Rewinding() then z.stray + |t.out| else z.stray))
  {
    hide Chain, Piece, Header.WithCount, Receiving, Awaiting, Filed, Begun, Persisting;
    var u := z.(down := z.down + t.out, s := t.(out := [], sent := 0), reach := z.reach + n,
                stray := if z.Rewinding() then z.stray + |t.out| else z.stray);
    PieceFits(m, z.Current().content, z.reach);
    PersistingStill(z, u);
    if z.r.phase == Rx.FileReadingSubpacket {
      FetchedInside(z, n, t, m);
    } else {
      FetchedOutside(z, n, t, m);
    }
  }

  lemma PersistingStill(z: Sys, t: Sys)
    requires 1 <= z.next <= |z.files| && t.files == z.files && t.next == z.next && t.start == z.start
    requires t.persisted == z.persisted && t.r == z.r
    ensures Persisting(z) <==> Persisting(t)
  {
  }

  lemma FetchedInside(z: Sys, n: nat, t: Tx.TxState, m: Tx.Msg)
    requires Flowing(z) && z.s.phase == Tx.NeedFileData && z.r.phase == Rx.FileReadingSubpacket
    requires Piece(m, z.Current().content, z.reach) && |m.sub.data| == n
    requires !z.s.needsHeader ==> t.out == [m]
    requires t.phase == Tx.WaitFileAck || t.phase == Tx.NeedFileData
    requires m.sub.kind == (if t.phase == Tx.WaitFileAck then ZCRCW else ZCRCG) && !t.needsHeader
    ensures Receiving(z.(down := z.down + t.out, s := t.(out := [], sent := 0), reach := z.reach + n, stray := z.stray))
  {
    hide Chain, Piece, Filed, Begun, Persisting, Stale, Rx.ZrinitHeader, Sendable;
    var content, e := z.Current().content, z.r.count + if z.r.sub.Writing? then |z.r.buf| else 0;
    assert !z.s.needsHeader && Chain(z.down, content, e, z.reach, false);
    ChainAppend(z.down, content, e, z.reach, m);
  }

  lemma FetchedOutside(z: Sys, n: nat, t: Tx.TxState, m: Tx.Msg)
    requires Flowing(z) && z.s.phase == Tx.NeedFileData && z.r.phase != Rx.FileReadingSubpacket
    requires Piece(m, z.Current().content, z.reach) && |m.sub.data| == n && m.Data? && z.r.out.None?
    requires t.out == if z.s.needsHeader then [ZdataMsg(z.reach), m] else [m]
    requires t.phase == Tx.WaitFileAck || t.phase == Tx.NeedFileData
    requires m.sub.kind == (if t.phase == Tx.WaitFileAck then ZCRCW else ZCRCG) && !t.needsHeader
    ensures
      Awaiting(z.(down := z.down + t.out, s := t.(out := [], sent := 0), reach := z.reach + n,
                  stray := if z.Rewinding() then z.stray + |t.out| else z.stray))
  {
    hide Piece, Header.WithCount, Common, Transferring, Awaiting, Rx.ZrinitHeader, Sendable;
    AwaitingOf(z);
    if z.up == [] || z.r.phase == Rx.FileBegin {
      FetchedNext(z, n, t, m);
    } else {
      FetchedStray(z, n, t, m);
    }
  }

  lemma AwaitingOf(z: Sys)
    requires Flowing(z) && z.r.phase != Rx.FileReadingSubpacket
    ensures Awaiting(z) && Waiting(z.r)
  {
    hide Common, Filed, Persisting, Receiving, Awaiting, Sendable, Sending;
  }

  /** What is read joins the frame the receiver waits for. */
  lemma FetchedNext(z: Sys, n: nat, t: Tx.TxState, m: Tx.Msg)
    requires Flowing(z) && z.s.phase == Tx.NeedFileData && z.r.phase != Rx.FileReadingSubpacket
    requires Piece(m, z.Current().content, z.reach) && |m.sub.data| == n && m.Data? && z.r.out.None?
    requires t.out == if z.s.needsHeader then [ZdataMsg(z.reach), m] else [m]
    requires t.phase == Tx.WaitFileAck || t.phase == Tx.NeedFileData
    requires m.sub.kind == (if t.phase == Tx.WaitFileAck then ZCRCW else ZCRCG) && !t.needsHeader
    requires z.up == [] || z.r.phase == Rx.FileBegin
    ensures Awaiting(z.(down := z.down + t.out, s := t.(out := [], sent := 0), reach := z.reach + n, stray := z.stray))
    ensures !z.Rewinding()
  {
    hide Chain, Piece, Header.WithCount, Common, Transferring, AllData, Stale, Closed, Rx.ZrinitHeader, Sendable;
    AwaitingOf(z);
    FetchedAnswering(z, t, m);
  }

  /** What is read is left over from a frame the receiver has given up on. */
  lemma FetchedStray(z: Sys, n: nat, t: Tx.TxState, m: Tx.Msg)
    requires Flowing(z) && z.s.phase == Tx.NeedFileData && z.r.phase != Rx.FileReadingSubpacket
    requires Piece(m, z.Current().content, z.reach) && |m.sub.data| == n && m.Data? && z.r.out.None?
    requires t.out == if z.s.needsHeader then [ZdataMsg(z.reach), m] else [m]
    requires t.phase == Tx.WaitFileAck || t.phase == Tx.NeedFileData
    requires m.sub.kind == (if t.phase == Tx.WaitFileAck then ZCRCW else ZCRCG) && !t.needsHeader
    requires z.up != [] && z.r.phase != Rx.FileBegin
    ensures z.Rewinding()
    ensures Awaiting(z.(down := z.down + t.out, s := t.(out := [], sent := 0), reach := z.reach + n,
                        stray := z.stray + |t.out|))
  {
    hide Chain, Piece, Header.WithCount, Common, Transferring, Stale, Closed, Rx.ZrinitHeader, Sendable;
    AwaitingOf(z);
    assert z.Rewinding() && t.out == [m];
    var d := z.down + [m];
    assert d[..|d|] == d && z.down[..z.stray] == z.down;
    assert AllData(d);
  }

  lemma FetchedAnswering(z: Sys, t: Tx.TxState, m: Tx.Msg)
    requires Flowing(z) && z.s.phase == Tx.NeedFileData && z.r.phase != Rx.FileReadingSubpacket
    requires z.up == [] || z.r.phase == Rx.FileBegin
    requires Piece(m, z.Current().content, z.reach) && (m.sub.kind == ZCRCW || m.sub.kind == ZCRCG)
    requires t.out == if z.s.needsHeader then [ZdataMsg(z.reach), m] else [m]
    ensures
      var d := z.down + t.out;
      && z.stray <= |d| && d[..z.stray] == z.down[..z.stray]
      && d[z.stray..] != [] && d[z.stray..][0] == ZdataMsg(z.r.count)
      && Chain(d[z.stray..][1..], z.Current().content, z.r.count, z.reach + |m.sub.data|, m.sub.kind == ZCRCW)
  {
    hide Chain, Piece, Header.WithCount, Filed, Begun, Persisting, Stale, Closed, Rx.ZrinitHeader, Sendable;
    var tail := z.down[z.stray..];
    CutAppend(z.down, z.stray, t.out);
    Joined(tail, t.out, []);
    if z.s.needsHeader {
      ChainNothing(z.Current().content, z.r.count);
      ChainAppend([], z.Current().content, z.r.count, z.reach, m);
      assert tail + t.out == t.out && t.out[1..] == [m] && [] + [m] == [m];
    } else {
      ChainAppend(tail[1..], z.Current().content, z.r.count, z.reach, m);
    }
  }

  lemma Joined<T>(a: seq<T>, b: seq<T>, c: seq<T>)
    ensures a + [] == a && (a + b) + c == a + (b + c)
    ensures a != [] ==> (a + b)[0] == a[0] && (a + b)[1..] == a[1..] + b
  {
  }

  lemma CutAppend<T>(s: seq<T>, k: nat, more: seq<T>)
    requires k <= |s|
    ensures (s + more)[..k] == s[..k] && (s + more)[k..] == s[k..] + more
  {
  }

  lemma ChainNothing(content: seq<byte>, from: nat)
    ensures Chain([], content, from, from, false)
  {
  }

  // ---------------------------------------------------------------------
  // Persisting
  // ---------------------------------------------------------------------

  /** The caller has persisted `n` bytes for a flat state. */
  function Saved(z: Sys, n: nat): Sys
    requires n <= |z.r.FileBytes()|
  {
    var r' := Rx.FileWritten(z.r, n).rx;
    z.(persisted := z.persisted + z.r.FileBytes()[..n], r := r'.(out := None, sent := 0), up := z.up + OutOf(r'))
  }

  /** What persisting has to come to. */
  predicate Saves(z: Sys, n: nat)
    requires n <= |z.r.FileBytes()|
  {
    && Lawful(Saved(z, n)) && Rx.FileWritten(z.r, n).rx.events == []
    && Load(Rx.FileWritten(z.r, n).rx) < Load(z.r) && !Saved(z, n).Rewinding()
  }

  lemma SavedKept(z: Sys, n: nat)
    requires Lawful(z) && Rx.Inv(z.r) && z.r.out.None? && z.r.sent == 0 && z.r.events == []
    requires 1 <= n <= |z.r.FileBytes()|
    ensures Saves(z, n)
  {
    hide Rx.FileWritten, Rx.Inv, Lawful, Saves, Transferring, Header.WithCount, Common;
    SavingWhen(z);
    SavedBytes(z, n);
    if z.r.written + n < |z.r.buf| {
      DataPersistedInPart(z.r, n);
      SavedPart(z, n);
    } else {
      DataPersisted(z.r, n);
      SavedWhole(z, n);
    }
  }

  lemma SavedBytes(z: Sys, n: nat)
    requires Flowing(z) && z.r.phase == Rx.FileReadingSubpacket && z.r.sub.Writing?
    requires n <= |z.r.FileBytes()| && z.r.written <= |z.r.buf|
    ensures z.r.count + |z.r.buf| <= |z.Current().content| && (z.r.sub.kind == ZCRCW || z.r.sub.kind == ZCRCG)
    ensures z.start <= z.r.count
    ensures z.persisted + z.r.FileBytes()[..n] == z.Current().content[z.start..z.r.count + z.r.written + n]
  {
    hide Chain, Filed, Common, Stale, Sending, Rx.ZrinitHeader;
    SavedSlices(z.Current().content, z.start, z.r.count, z.r.buf, z.r.written, n);
  }

  lemma SavedSlices(content: seq<byte>, start: nat, c: nat, buf: seq<byte>, written: nat, n: nat)
    requires start <= c && c + |buf| <= |content| && buf == content[c..c + |buf|] && written + n <= |buf|
    ensures content[start..c + written] + buf[written..][..n] == content[start..c + written + n]
  {
    var e := c + written;
    assert buf[written..][..n] == buf[written..written + n];
    assert content[c..c + |buf|][written..written + n] == content[e..e + n];
    assert content[start..e] + content[e..e + n] == content[start..e + n];
  }

  /** A stretch from where the file was accepted is the beginning of the rest. */
  lemma StretchBegins(z: Sys, e: nat, persisted: seq<byte>)
    requires 1 <= z.next <= |z.files| && z.started == z.next && z.start <= e <= |z.Current().content|
    requires persisted == z.Current().content[z.start..e]
    ensures Begun(z.files, z.started, z.start, persisted)
  {
    assert persisted == Rest(z.Current(), z.start)[..e - z.start];
  }

  lemma SavedPart(z: Sys, n: nat)
    requires Flowing(z) && z.r.phase == Rx.FileReadingSubpacket && z.r.sub.Writing? && z.r.out.None? && z.r.sent == 0
    requires 1 <= n <= |z.r.FileBytes()| && z.r.written + n < |z.r.buf| && z.r.events == []
    requires z.r.count + |z.r.buf| <= |z.Current().content| && z.start <= z.r.count
    requires z.persisted + z.r.FileBytes()[..n] == z.Current().content[z.start..z.r.count + z.r.written + n]
    requires Rx.FileWritten(z.r, n).rx == z.r.(written := z.r.written + n)
    ensures Saves(z, n)
  {
    hide Rx.FileWritten, Chain, Filed, Sendable, Begun, Stale, Rx.ZrinitHeader, Lawful, Sending;
    assert z.up + [] == z.up;
    StretchBegins(z, z.r.count + z.r.written + n, z.persisted + z.r.FileBytes()[..n]);
    FlowingIsLawful(Saved(z, n));
  }

  /** Data is on offer only inside a transfer. */
  lemma SavingWhen(z: Sys)
    requires Lawful(z) && Rx.Inv(z.r) && z.r.FileBytes() != []
    ensures Flowing(z) && z.r.phase == Rx.FileReadingSubpacket
    ensures z.r.sub.Writing? && z.r.written < |z.r.buf| && z.r.reader == FRESH
    ensures z.r.count + |z.r.buf| <= Rx.MAX_COUNT && (z.r.sub.kind == ZCRCW || z.r.sub.kind == ZCRCG)
  {
    hide Rx.Checked, Chain, Header.WithCount, Sealed, Metadata, Filed, Stale, Holding, Closed, Begun, Rx.ZrinitHeader;
    hide Whole, Asking, Tx.ZfileFrame, Announced;
  }

  lemma SavedWhole(z: Sys, n: nat)
    requires Flowing(z) && z.r.phase == Rx.FileReadingSubpacket && z.r.sub.Writing? && z.r.out.None? && z.r.sent == 0
    requires z.r.reader == FRESH && 1 <= n == |z.r.buf| - z.r.written && z.r.events == []
    requires z.r.count + |z.r.buf| <= |z.Current().content| && z.start <= z.r.count
    requires z.persisted + z.r.FileBytes()[..n] == z.Current().content[z.start..z.r.count + |z.r.buf|]
    requires z.r.count + |z.r.buf| <= Rx.MAX_COUNT && (z.r.sub.kind == ZCRCW || z.r.sub.kind == ZCRCG)
    requires
      var t := z.r.Cleared().(count := z.r.count + |z.r.buf|, retries := 0);
      Rx.FileWritten(z.r, n).rx ==
      if z.r.sub.kind == ZCRCG then t.(sub := Rx.Reading)
      else Answered(t.(phase := Rx.FileWaitingSubpacket, sub := Rx.Resting), Zack(t.count))
    ensures Saves(z, n)
  {
    hide Rx.FileWritten, Chain, Receiving, Awaiting, Filed, Sendable, Begun, Lawful, Sending, Header.WithCount, Rx.ZrinitHeader;
    StretchBegins(z, z.r.count + |z.r.buf|, z.persisted + z.r.FileBytes()[..n]);
    if z.r.sub.kind == ZCRCG {
      SavedGoesOn(z, n);
    } else {
      SavedAnswers(z, n);
    }
    FlowingIsLawful(Saved(z, n));
  }

  lemma SavedGoesOn(z: Sys, n: nat)
    requires Flowing(z) && z.r.phase == Rx.FileReadingSubpacket && z.r.sub.Writing? && z.r.sub.kind == ZCRCG
    requires n <= |z.r.FileBytes()| && z.r.count + |z.r.buf| <= |z.Current().content|
    requires z.r.count + |z.r.buf| <= Rx.MAX_COUNT && z.r.out.None?
    requires Rx.FileWritten(z.r, n).rx == z.r.Cleared().(count := z.r.count + |z.r.buf|, retries := 0, sub := Rx.Reading)
    ensures Receiving(Saved(z, n))
  {
    hide Rx.FileWritten, Chain, Filed, Common, Persisting, Sendable, Stale, Sending, Rx.ZrinitHeader;
    assert z.up + [] == z.up;
  }

  lemma SavedAnswers(z: Sys, n: nat)
    requires Flowing(z) && z.r.phase == Rx.FileReadingSubpacket && z.r.sub.Writing? && z.r.sub.kind == ZCRCW
    requires n <= |z.r.FileBytes()| && z.r.count + |z.r.buf| <= |z.Current().content|
    requires z.r.count + |z.r.buf| <= Rx.MAX_COUNT && z.r.reader == FRESH
    requires
      var t := z.r.Cleared().(count := z.r.count + |z.r.buf|, retries := 0);
      Rx.FileWritten(z.r, n).rx == Answered(t.(phase := Rx.FileWaitingSubpacket, sub := Rx.Resting), Zack(t.count))
    ensures Awaiting(Saved(z, n))
  {
    hide Rx.FileWritten, Chain, Filed, Common, Persisting, Sendable, Stale, Closed, Sending, Rx.ZrinitHeader, Header.WithCount;
    StaleMore(z.up, Zrinit(z.r), Zack(z.r.count + |z.r.buf|));
  }
}
