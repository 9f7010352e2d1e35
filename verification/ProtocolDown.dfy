/** The joined system keeps its invariant, so nothing is lost, doubled or reordered
    whatever arrives damaged and whenever a timer fires. This file is about what
    comes down to the receiver. */
module ProtocolDown {
  import opened Primitives
  import opened HeaderCodec
  import opened HeaderReading
  import opened Subpackets
  import opened FileMetadata
  import opened Protocol
  import opened ProtocolDeliveries
  import Tx = SenderSpec
  import Rx = ReceiverSpec

  // ---------------------------------------------------------------------
  // Answers under way
  // ---------------------------------------------------------------------

  lemma ZrinitFrame(r: Rx.RxState)
    ensures Zrinit(r).frame == ZRINIT
  {
  }

  lemma StaleMore(up: seq<Header>, zrinit: Header, h: Header)
    requires Stale(up, zrinit)
    ensures Stale(up + [zrinit], zrinit) && Closed(up + [h], zrinit, h)
  {
    assert (up + [h])[..|up|] == up;
  }

  lemma StaleLess(up: seq<Header>, zrinit: Header)
    requires Stale(up, zrinit) && up != []
    ensures up[0] == zrinit && Stale(up[1..], zrinit)
  {
  }

  lemma {:induction false} StaleHolds(up: seq<Header>, zrinit: Header, h: Header)
    requires Stale(up, zrinit)
    ensures Holding(up + [h], zrinit, h)
    decreases |up|
  {
    if up == [] {
      assert [] + [h] == [h];
    } else {
      StaleLess(up, zrinit);
      assert (up + [h])[1..] == up[1..] + [h];
      if up[0] == h {
        StaleMore(up[1..], zrinit, h);
        assert Stale(up[1..] + [h], zrinit);
      } else {
        StaleHolds(up[1..], zrinit, h);
      }
    }
  }

  lemma {:induction false} HoldingMore(up: seq<Header>, zrinit: Header, h: Header)
    requires Holding(up, zrinit, h)
    ensures Holding(up + [zrinit], zrinit, h)
    decreases |up|
  {
    assert (up + [zrinit])[1..] == up[1..] + [zrinit];
    if up[0] == h {
      StaleMore(up[1..], zrinit, h);
    } else {
      HoldingMore(up[1..], zrinit, h);
    }
  }

  lemma HoldingLess(up: seq<Header>, zrinit: Header, h: Header)
    requires Holding(up, zrinit, h)
    ensures up[0] == h ==> Stale(up[1..], zrinit)
    ensures up[0] != h ==> up[0] == zrinit && Holding(up[1..], zrinit, h)
    ensures |up| > 1 ==> up[1..][|up| - 2] == up[|up| - 1]
  {
  }

  lemma ClosedLess(up: seq<Header>, zrinit: Header, h: Header)
    requires Closed(up, zrinit, h)
    ensures |up| == 1 ==> up == [h]
    ensures |up| > 1 ==> up[0] == zrinit && Closed(up[1..], zrinit, h)
  {
    if |up| > 1 {
      assert up[..|up| - 1][0] == up[0];
      assert up[1..][..|up| - 2] == up[..|up| - 1][1..];
    }
  }

  // ---------------------------------------------------------------------
  // Steps on the flat state
  // ---------------------------------------------------------------------

  /** The frame in front has reached the receiver and left it at `r'`. */
  function Landed(z: Sys, r': Rx.RxState): Sys
    requires z.down != []
  {
    z.(down := z.down[1..], up := z.up + OutOf(r'), r := r'.(out := None, sent := 0),
       stray := if z.stray > 0 then z.stray - 1 else 0)
  }

  /** What a delivery to the receiver has to come to: no error, what holds still
      holds, and there is less to do than before. */
  predicate Lands(z: Sys, f: Rx.Fed)
    requires z.down != []
  {
    && f.Fed? && Lawful(Landed(z, f.rx)) && Mannered(f.rx) && Lighter(z, f.rx)
  }

  predicate Lighter(z: Sys, r': Rx.RxState)
    requires z.down != []
  {
    && Load(r') < Load(z.r) + Weight(z.down[0])
    && (Landed(z, r').Rewinding() ==> z.Rewinding())
  }

  /** A flat state whose receiver is about to hear the frame in front. */
  predicate Ripe(z: Sys)
  {
    Lawful(z) && Rx.Inv(z.r) && z.down != [] && z.r.CanRead() && z.r.out.None? && z.r.sent == 0 && z.r.events == []
  }

  // ---------------------------------------------------------------------
  // The handshake and the offer
  // ---------------------------------------------------------------------

  lemma AskingLess(ms: seq<Tx.Msg>)
    requires Asking(ms) && ms != []
    ensures ms[0] == ZRQINIT_MSG && Asking(ms[1..])
  {
  }

  lemma HelloLands(z: Sys)
    requires Ripe(z) && z.s.phase == Tx.WaitReceiverInit
    ensures Lands(z, Rx.Feed(z.r, Item(z.down[0])))
  {
    hide Rx.Feed, HeaderCore, Lands, Asking, Stale, Rx.Inv, Rx.ZrinitHeader, Common, Begun;
    AskingLess(z.down);
    ZrqinitHeard(z.r);
    HelloTaken(z, Rx.Feed(z.r, Item(z.down[0])));
  }

  lemma HelloTaken(z: Sys, f: Rx.Fed)
    requires Common(z) && Hello(z) && z.s.phase == Tx.WaitReceiverInit && z.down != [] && z.r.out.None?
    requires z.down[0] == ZRQINIT_MSG && f == Rx.Fed.Fed(Answered(z.r.(reader := FRESH), Zrinit(z.r)))
    ensures Lands(z, f)
  {
    hide Asking, Stale, Rx.ZrinitHeader, Begun, Sendable, Offering, Transferring, Closing, Trailing, Leaving, Left;
    AskingLess(z.down);
    StaleMore(z.up, Zrinit(z.r), Zrinit(z.r));
  }

  lemma OfferingLands(z: Sys)
    requires Ripe(z) && z.s.phase == Tx.WaitFilePos
    ensures Lands(z, Rx.Feed(z.r, Item(z.down[0])))
  {
    hide Rx.Feed, Lands, Item, Rx.Inv, Rx.ZrinitHeader, Header.WithCount, Metadata, Sealed, Common, Trailing;
    hide Asking, Stale, Holding, Filed;
    if z.r.phase == Rx.FileReadingMetadata {
      MetadataLands(z);
    } else if z.r.phase == Rx.SessionBegin {
      if |z.down| > 2 {
        RepeatedHelloLands(z);
      } else {
        assert z.down[0..] == z.down;
        ZfileLands(z);
      }
    } else {
      TrailLands(z, z.next - 1, ZfileMsgs(z.Current()));
    }
  }

  lemma RepeatedHelloLands(z: Sys)
    requires Ripe(z) && z.s.phase == Tx.WaitFilePos && z.r.phase == Rx.SessionBegin && |z.down| > 2
    ensures Lands(z, Rx.Feed(z.r, Item(z.down[0])))
  {
    hide Rx.Feed, HeaderCore, Lands, Rx.Inv, Rx.ZrinitHeader, Metadata, Sealed, Common, Asking, Stale;
    var asked := z.down[..|z.down| - 2];
    AskingLess(asked);
    assert asked[0] == z.down[0];
    ZrqinitHeard(z.r);
    RepeatedHelloTaken(z, Rx.Feed(z.r, Item(z.down[0])));
  }

  lemma RepeatedHelloTaken(z: Sys, f: Rx.Fed)
    requires Common(z) && Offering(z) && z.s.phase == Tx.WaitFilePos && z.r.phase == Rx.SessionBegin && |z.down| > 2
    requires z.r.out.None? && z.down[0] == ZRQINIT_MSG && f == Rx.Fed.Fed(Answered(z.r.(reader := FRESH), Zrinit(z.r)))
    ensures Lands(z, f)
  {
    hide Asking, Stale, Rx.ZrinitHeader, Begun, Sendable, Hello, Transferring, Closing, Trailing, Leaving, Left;
    hide Metadata, Sealed, Tx.ZfileFrame, Filed, Requested;
    var asked := z.down[..|z.down| - 2];
    AskingLess(asked);
    assert z.down[1..][..|z.down| - 3] == asked[1..];
    assert z.down[1..][|z.down| - 3..] == z.down[|z.down| - 2..];
    StaleMore(z.up, Zrinit(z.r), Zrinit(z.r));
  }

  /** A receiver between files, or before the first, takes a ZFILE. */
  lemma ZfileLands(z: Sys)
    requires Ripe(z) && z.s.phase == Tx.WaitFilePos && z.down == ZfileMsgs(z.Current())
    requires z.r.phase == Rx.SessionBegin || z.r.phase == Rx.FileBegin
    ensures Lands(z, Rx.Feed(z.r, Item(z.down[0])))
  {
    hide Rx.Feed, HeaderCore, Lands, Rx.Inv, Rx.ZrinitHeader, Header.WithCount, Metadata, Sealed, Common;
    hide Asking, Stale, Holding, Filed, Trailing;
    ZfileFirst(z.Current());
    ReadyFor(z);
    ZfileHeard(z.r);
    ZfileTaken(z, Rx.Feed(z.r, Item(z.down[0])));
  }

  lemma ZfileFirst(f: File)
    requires Sendable(f)
    ensures |ZfileMsgs(f)| == 2 && ZfileMsgs(f)[0] == Tx.Head(ZFILE_HEADER)
    ensures ZfileMsgs(f)[1..] == [Tx.Data(Sealed(ZBIN32, ZCRCW, Metadata(f.name, |f.content|)))]
  {
    hide Sealed, Metadata;
  }

  lemma ZfileTaken(z: Sys, f: Rx.Fed)
    requires Common(z) && Offering(z) && z.s.phase == Tx.WaitFilePos && z.down == ZfileMsgs(z.Current())
    requires z.r.phase == Rx.SessionBegin || z.r.phase == Rx.FileBegin
    requires z.r.out.None? && z.r.events == [] && |z.down| == 2
    requires f == Rx.Fed.Fed(z.r.(reader := FRESH).Cleared().(
                    encoding := ZBIN32, phase := Rx.FileReadingMetadata, sub := Rx.Reading))
    ensures Lands(z, f)
  {
    hide Rx.ZrinitHeader, Tx.ZfileFrame, Begun, Sendable, Asking, Stale, Holding, Faithful;
    hide Hello, Transferring, Closing, Leaving, Left, Requested, Header.WithCount;
    assert z.up + [] == z.up;
    ReadyFor(z);
  }

  /** Before a ZFILE, the files before it are closed. */
  lemma ReadyFor(z: Sys)
    requires Common(z) && Offering(z) && z.s.phase == Tx.WaitFilePos && z.down == ZfileMsgs(z.Current()) && |z.down| == 2
    requires z.r.phase == Rx.SessionBegin || z.r.phase == Rx.FileBegin
    requires z.r.events == []
    ensures Filed(z.files, z.disk, z.next - 1, z.r.manual) && z.started == z.next - 1
    ensures Stale(z.up, Zrinit(z.r)) && AtRest(z.r)
  {
    hide Rx.ZrinitHeader, Tx.ZfileFrame, Begun, Sendable, Asking, Stale, Holding, Faithful, Requested, Header.WithCount;
  }

  lemma MetadataLands(z: Sys)
    requires Ripe(z) && z.s.phase == Tx.WaitFilePos && z.r.phase == Rx.FileReadingMetadata
    ensures Lands(z, Rx.Feed(z.r, Item(z.down[0])))
  {
    hide Rx.Feed, Lawful, Lands, SubWire.Bytes, Header.WithCount, Metadata, Sealed, Common;
    MetadataDue(z);
    MetadataHeard(z.r, z.Current());
    MetadataTaken(z, Rx.Feed(z.r, Item(z.down[0])));
  }

  lemma MetadataDue(z: Sys)
    requires Ripe(z) && z.s.phase == Tx.WaitFilePos && z.r.phase == Rx.FileReadingMetadata
    ensures 1 <= z.next <= |z.files| && Sendable(z.Current()) && Listens(z.r) && Common(z) && Offering(z)
    ensures z.down == [Tx.Data(Sealed(ZBIN32, ZCRCW, Metadata(z.Current().name, |z.Current().content|)))]
    ensures Weight(z.down[0]) >= 6
  {
    hide Rx.Checked, Sealed, Metadata, Header.WithCount, Rx.ZrinitHeader, Begun, Stale, Filed;
    ZfileFirst(z.Current());
    MetadataSome(z.Current());
  }

  lemma MetadataSome(f: File)
    requires Sendable(f)
    ensures |Sealed(ZBIN32, ZCRCW, Metadata(f.name, |f.content|)).data| >= 3
  {
    hide Checksum, Decimal;
  }

  lemma MetadataTaken(z: Sys, f: Rx.Fed)
    requires 1 <= z.next <= |z.files| && Sendable(z.Current()) && Common(z) && Offering(z)
    requires z.s.phase == Tx.WaitFilePos && z.r.phase == Rx.FileReadingMetadata
    requires |z.down| == 1 && z.r.reader == FRESH && Weight(z.down[0]) >= 6 && z.r.out.None? && z.r.sent == 0
    requires f == Rx.Fed.Fed(Introduced(z.r, z.Current()))
    ensures Lands(z, f)
  {
    hide Header.WithCount, Rx.ZrinitHeader, Sealed, Metadata, Tx.ZfileFrame, Begun, Filed, Stale, Holding, Sendable;
    hide Hello, Transferring, Closing, Leaving, Left, Trailing, Offering;
    assert z.up + [] == z.up;
    FileIntroduced(z);
    OfferingParts(z);
  }

  lemma OfferingParts(z: Sys)
    requires 1 <= z.next <= |z.files| && Sendable(z.Current()) && Offering(z) && z.r.phase == Rx.FileReadingMetadata
    ensures z.r.events == []
  {
    hide Header.WithCount, Rx.ZrinitHeader, Sealed, Metadata, Tx.ZfileFrame, Filed, Stale;
  }

  /** The file is on record at the receiver, and asked for unless its caller decides. */
  lemma FileIntroduced(z: Sys)
    requires 1 <= z.next <= |z.files| && Sendable(z.Current()) && Offering(z) && z.r.phase == Rx.FileReadingMetadata
    requires |z.down| == 1 && z.r.reader == FRESH && z.r.out.None? && (!z.r.manual ==> z.start == 0)
    ensures Offering(Landed(z, Introduced(z.r, z.Current())))
  {
    hide Header.WithCount, Rx.ZrinitHeader, Sealed, Metadata, Tx.ZfileFrame, Filed, Stale, Holding, Sendable, Trailing;
    StaleHolds(z.up, Zrinit(z.r), Zrpos(0));
    ZrinitFrame(z.r);
    assert z.up + [] == z.up;
    assert (z.up + [Zrpos(0)])[|z.up|] == Zrpos(0);
    PositionFrames(0);
  }

  lemma PositionFrames(offset: u32)
    ensures Zrpos(offset).frame == ZRPOS && Zack(offset).frame == ZACK
  {
    hide LeBytes;
  }

  // ---------------------------------------------------------------------
  // The end of a file
  // ---------------------------------------------------------------------

  /** The receiver after a ZEOF at its offset. */
  function Finished(r: Rx.RxState): Rx.RxState
  {
    Answered(r.(reader := FRESH, phase := Rx.FileBegin, active := false, events := [Rx.FileComplete]), Zrinit(r))
  }

  /** The ZEOF that says what the receiver knows: it settles the file. */
  lemma ZeofSettles(z: Sys, k: nat)
    requires z.down != [] && k <= |z.files| && Waiting(z.r) && AtRest(z.r) && z.r.events == [] && z.started == k && k > 0
    requires Filed(z.files, z.disk, k - 1, z.r.manual) && Whole(z, k) && z.r.out.None?
    ensures
      var t := Landed(z, Finished(z.r));
      && Settled(t, k) && t.r.events == [Rx.FileComplete] && t.up == z.up + [Zrinit(z.r)]
      && Zrinit(t.r) == Zrinit(z.r) && t.r.manual == z.r.manual
    ensures !z.down[0].Data? ==> Lighter(z, Finished(z.r)) && Mannered(Finished(z.r))
  {
    hide Rx.ZrinitHeader, Faithful;
  }

  lemma TrailLands(z: Sys, k: nat, tail: seq<Tx.Msg>)
    requires Ripe(z) && z.next <= |z.files| && k <= |z.files| && Trailing(z, k, tail)
    requires z.s.phase == Tx.WaitFilePos ==> k == z.next - 1 && k > 0 && tail == ZfileMsgs(z.Current())
    requires z.s.phase == Tx.ReadyForFile ==> k == z.next && tail == []
    requires z.s.phase == Tx.WaitFinish ==> k == z.next && tail == [ZFIN_MSG]
    requires z.s.phase == Tx.Finished ==> k == z.next && tail == [ZFIN_MSG, Tx.Over]
    requires z.s.phase == Tx.WaitFilePos ==> z.r.phase == Rx.FileBegin
    requires z.s.phase in {Tx.WaitFilePos, Tx.ReadyForFile, Tx.WaitFinish, Tx.Finished}
    ensures Lands(z, Rx.Feed(z.r, Item(z.down[0])))
  {
    hide Rx.Feed, HeaderCore, Lands, Lawful, Rx.Inv, Header.WithCount, Metadata, Sealed, Whole, Filed, Tx.ZfileFrame;
    if Lagging(z, k) && z.down == [ZeofMsg(z.r.count)] + tail {
      ZeofHeard(z.r);
      LagTaken(z, k, tail);
    } else if z.s.phase == Tx.WaitFilePos {
      ZfileLands(z);
    } else {
      ZfinHeard(z.r);
      ZfinTaken(z);
    }
  }

  lemma LagTaken(z: Sys, k: nat, tail: seq<Tx.Msg>)
    requires Lawful(z) && k <= |z.files| && Lagging(z, k) && z.down == [ZeofMsg(z.r.count)] + tail
    requires z.r.out.None?
    requires z.s.phase == Tx.WaitFilePos ==> k == z.next - 1 && k > 0 && tail == ZfileMsgs(z.Current())
    requires z.s.phase == Tx.ReadyForFile ==> k == z.next && tail == []
    requires z.s.phase == Tx.WaitFinish ==> k == z.next && tail == [ZFIN_MSG]
    requires z.s.phase == Tx.Finished ==> k == z.next && tail == [ZFIN_MSG, Tx.Over]
    requires z.s.phase in {Tx.WaitFilePos, Tx.ReadyForFile, Tx.WaitFinish, Tx.Finished}
    ensures Lands(z, Rx.Fed.Fed(Finished(z.r)))
  {
    hide Lighter, Landed, Finished, Settled, Header.WithCount, Tx.ZfileFrame, Whole, Filed, Begun, Stale;
    hide Hello, Transferring, Closing, Requested, Holding, Closed;
    ZeofSettles(z, k);
    LandedParts(z, Finished(z.r));
    if z.s.phase != Tx.Finished {
      StaleMore(z.up, Zrinit(z.r), Zrinit(z.r));
    }
    assert ([ZeofMsg(z.r.count)] + tail)[1..] == tail;
    if z.s.phase == Tx.WaitFilePos {
      ZfileFirst(z.Current());
    }
    SettledBetween(Landed(z, Finished(z.r)), k);
  }

  lemma SettledBetween(z: Sys, k: nat)
    requires k <= |z.files| && Settled(z, k)
    ensures Between(z.r)
  {
  }

  /** What a delivery to the receiver leaves alone. */
  lemma LandedParts(z: Sys, r': Rx.RxState)
    requires z.down != []
    ensures
      var t := Landed(z, r');
      && t.s == z.s && t.files == z.files && t.next == z.next && t.disk == z.disk && t.started == z.started
      && t.start == z.start && t.persisted == z.persisted && t.hasty == z.hasty && t.reach == z.reach
      && t.down == z.down[1..] && t.up == z.up + OutOf(r') && t.r == r'.(out := None, sent := 0)
      && t.stray == if z.stray > 0 then z.stray - 1 else 0
  {
  }

  /** The receiver after a ZFIN. */
  function Departed(r: Rx.RxState): Rx.RxState
  {
    Answered(r.(reader := FRESH, phase := Rx.SessionEnd, events := [Rx.SessionComplete]), ZFIN_HEADER)
  }

  lemma ZfinTaken(z: Sys)
    requires Lawful(z) && (z.s.phase == Tx.WaitFinish || z.s.phase == Tx.Finished) && z.r.out.None? && z.r.events == []
    requires z.down == [ZFIN_MSG] + (if z.s.phase == Tx.WaitFinish then [] else [Tx.Over])
    requires Settled(z, z.next)
    ensures Lands(z, Rx.Fed.Fed(Departed(z.r)))
  {
    hide Filed, Hello, Offering, Transferring, Closing, Sendable, Begun, Stale, Rx.ZrinitHeader, Closed, Whole;
    assert z.down[1..] == if z.s.phase == Tx.WaitFinish then [] else [Tx.Over];
    if z.s.phase == Tx.WaitFinish {
      StaleMore(z.up, Zrinit(z.r), ZFIN_HEADER);
    }
  }

  lemma ClosingLands(z: Sys)
    requires Ripe(z) && z.s.phase == Tx.WaitFileDone
    ensures Lands(z, Rx.Feed(z.r, Item(z.down[0])))
  {
    hide Rx.Feed, HeaderCore, Lands, Rx.Inv, Rx.ZrinitHeader, Header.WithCount, Filed, Common, Whole, Settled, Stale;
    ZeofHeard(z.r);
    ClosingTaken(z);
  }

  lemma ClosingTaken(z: Sys)
    requires 1 <= z.next <= |z.files| && Sendable(z.Current())
    requires Common(z) && Closing(z) && z.s.phase == Tx.WaitFileDone && z.down != [] && z.r.out.None?
    ensures Lands(z, Rx.Fed.Fed(Finished(z.r)))
  {
    hide Lighter, Landed, Finished, Settled, Common, Closing, Header.WithCount;
    hide Hello, Offering, Transferring, Leaving, Left, Trailing;
    ClosingParts(z);
    ZeofSettles(z, z.next);
    LandedParts(z, Finished(z.r));
    CommonLanded(z, Finished(z.r));
    ClosingSettled(z, Landed(z, Finished(z.r)));
  }

  lemma ClosingParts(z: Sys)
    requires 1 <= z.next <= |z.files| && Closing(z) && z.down != []
    ensures z.down == [ZeofMsg(z.r.count)] && Stale(z.up, Zrinit(z.r)) && (z.up != [] ==> z.hasty)
    ensures Waiting(z.r) && AtRest(z.r) && z.r.events == [] && z.started == z.next
    ensures Filed(z.files, z.disk, z.next - 1, z.r.manual) && Whole(z, z.next)
  {
    hide Filed, Whole, Settled, Stale, Header.WithCount, Rx.ZrinitHeader;
  }

  /** What holds whatever the phase looks at no more of the receiver than its mode. */
  lemma CommonLanded(z: Sys, r': Rx.RxState)
    requires Common(z) && z.down != [] && r'.manual == z.r.manual
    ensures Common(Landed(z, r'))
  {
    hide Sendable, Begun;
  }

  lemma ClosingSettled(z: Sys, t: Sys)
    requires 1 <= z.next <= |z.files| && t.next == z.next && t.files == z.files && t.hasty == z.hasty
    requires t.down == [] && Settled(t, t.next)
    requires Stale(z.up, Zrinit(z.r)) && t.up == z.up + [Zrinit(z.r)] && Zrinit(t.r) == Zrinit(z.r)
    requires z.up != [] ==> z.hasty
    ensures Closing(t)
  {
    hide Stale, Settled, Rx.ZrinitHeader;
    StaleMore(z.up, Zrinit(z.r), Zrinit(z.r));
  }

  lemma ReadyLands(z: Sys)
    requires Ripe(z) && z.s.phase == Tx.ReadyForFile
    ensures Lands(z, Rx.Feed(z.r, Item(z.down[0])))
  {
    hide Rx.Feed, Item, Lands, Rx.Inv, Rx.ZrinitHeader, Trailing, Common, Stale;
    TrailLands(z, z.next, []);
  }

  lemma LeavingLands(z: Sys)
    requires Ripe(z) && z.s.phase == Tx.WaitFinish
    ensures Lands(z, Rx.Feed(z.r, Item(z.down[0])))
  {
    hide Rx.Feed, Item, Lands, Rx.Inv, Rx.ZrinitHeader, Trailing, Common, Stale;
    TrailLands(z, z.next, [ZFIN_MSG]);
  }

  lemma LeftLands(z: Sys)
    requires Ripe(z) && z.s.phase == Tx.Finished
    ensures Lands(z, Rx.Feed(z.r, Item(z.down[0])))
  {
    hide Rx.Feed, Lands, Rx.Inv, Rx.ZrinitHeader, Trailing, Common, Stale, HeaderCore, Gone;
    if |z.down| > 1 {
      TrailLands(z, z.next, [ZFIN_MSG, Tx.Over]);
    } else {
      assert Gone(z);
      GoneHears(z);
      OverHeard(z.r);
      OverTaken(z, Rx.Feed(z.r, Tx.OO));
    }
  }

  lemma GoneHears(z: Sys)
    requires z.next <= |z.files| && Gone(z) && z.r.CanRead() && z.r.out.None? && z.r.events == []
    ensures Hears(z.r)
  {
    hide Filed;
  }

  lemma OverTaken(z: Sys, f: Rx.Fed)
    requires Common(z) && z.s.phase == Tx.Finished && Left(z) && |z.down| == 1 && z.r.out.None? && z.r.events == []
    requires f.Fed? && OnlyReads(z.r, f.rx)
    ensures Lands(z, f)
  {
    hide Sendable, Filed, Begun, Hello, Offering, Transferring, Closing, Leaving, Trailing, Stale;
    assert z.up + [] == z.up;
  }
}
