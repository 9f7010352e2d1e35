/** The joined system keeps its invariant: what comes up to the sender. */
module ProtocolUp {
  import opened Primitives
  import opened HeaderCodec
  import opened HeaderReading
  import opened Subpackets
  import opened FileMetadata
  import opened Protocol
  import opened ProtocolDeliveries
  import opened ProtocolDown
  import opened ProtocolTransfer
  import Tx = SenderSpec
  import Rx = ReceiverSpec

  /** The answer in front has reached the sender and left it at `s'`. */
  function Told(z: Sys, s': Tx.TxState): Sys
    requires z.up != []
  {
    z.(up := z.up[1..], down := z.down + s'.out, s := s'.(out := [], sent := 0),
       reach := if s'.request.Some? then s'.request.value.offset else z.reach)
  }

  /** A flat state whose sender is about to hear the answer in front. An event that
      came with the last answer has been seen to. */
  predicate Due(z: Sys)
  {
    && Lawful(z) && Tx.Inv(z.s) && z.up != [] && !z.s.Blocked() && z.s.sent == 0 && z.r.out.None?
    && (z.r.events != [] ==> |z.up| > 1 || z.r.phase == Rx.FileAcceptPending)
  }

  /** What a delivery to the sender has to come to: no error, what holds still
      holds, and the session is further on, or nothing was left to say. */
  predicate Tells(z: Sys, f: Tx.Fed)
    requires z.up != []
  {
    && f.Fed? && Lawful(Told(z, f.tx)) && Prompt(f.tx)
    && (Stage(Told(z, f.tx)) < Stage(z) || Proceeds(z, f.tx))
  }

  /** The sender goes on within a stage. */
  predicate Proceeds(z: Sys, s': Tx.TxState)
    requires z.up != []
  {
    var t := Told(z, s');
    && Stage(t) == Stage(z) && s'.out == [] && s'.event == z.s.event
    && (t.Rewinding() ==> z.Rewinding())
    && ((t.Rewinding() <==> z.Rewinding()) ==> Behind(t) <= Behind(z))
  }

  // ---------------------------------------------------------------------
  // A ZRINIT that says nothing
  // ---------------------------------------------------------------------

  lemma ZrinitDue(z: Sys)
    requires Lawful(z) && !z.s.Blocked() && z.s.phase != Tx.WaitReceiverInit
    ensures
      var f := Tx.Feed(z.s, HeaderCore(Zrinit(z.r)));
      f.Fed? && Alike(Initiated(z.s), f.tx)
  {
    hide Tx.Feed, HeaderCore, Rx.ZrinitHeader, Begun, Sendable, Hello, Offering, Transferring, Closing, Trailing;
    hide Leaving, Left, Stale, Initiated, Alike;
    ZrinitTold(z.s, z.r);
  }

  function Passed(z: Sys, s': Tx.TxState): Sys
    requires z.up != []
  {
    z.(up := z.up[1..], s := s')
  }

  lemma PassTells(z: Sys, f: Tx.Fed)
    requires z.up != [] && z.s.out == [] && z.s.sent == 0 && z.s.request.None?
    requires f.Fed? && Alike(z.s, f.tx) && Lawful(Passed(z, f.tx))
    ensures Tells(z, f)
  {
    hide Lawful;
    assert z.down + [] == z.down;
    assert Told(z, f.tx) == Passed(z, f.tx);
  }

  lemma CommonPasses(z: Sys, s': Tx.TxState)
    requires Common(z) && z.up != [] && Alike(z.s, s')
    ensures Common(Passed(z, s'))
  {
    hide Sendable, Begun;
  }

  // ---------------------------------------------------------------------
  // The handshake and the offer
  // ---------------------------------------------------------------------

  lemma HelloTells(z: Sys)
    requires Due(z) && z.s.phase == Tx.WaitReceiverInit
    ensures Tells(z, Tx.Feed(z.s, HeaderCore(z.up[0])))
  {
    hide Tx.Feed, HeaderCore, Tx.Inv, Rx.ZrinitHeader, Tells, Stale, Asking, Begun, Sendable, Initiated, Alike;
    StaleLess(z.up, Zrinit(z.r));
    ZrinitTold(z.s, z.r);
    HelloOffers(z, Tx.Feed(z.s, HeaderCore(z.up[0])));
  }

  lemma HelloOffers(z: Sys, f: Tx.Fed)
    requires Lawful(z) && z.up != [] && z.s.phase == Tx.WaitReceiverInit
    requires f.Fed? && Alike(Initiated(z.s), f.tx)
    ensures Tells(z, f)
  {
    hide Rx.ZrinitHeader, Stale, Asking, Begun, Sendable, Transferring, Closing, Trailing, Leaving, Left, Requested;
    hide Sealed, Metadata;
    StaleLess(z.up, Zrinit(z.r));
    var frame := ZfileMsgs(z.Current());
    assert (z.down + frame)[..|z.down|] == z.down && (z.down + frame)[|z.down|..] == frame;
  }

  lemma OfferingTells(z: Sys)
    requires Due(z) && z.s.phase == Tx.WaitFilePos
    ensures Tells(z, Tx.Feed(z.s, HeaderCore(z.up[0])))
  {
    hide Tx.Feed, HeaderCore, Tx.Inv, Tells, Rx.ZrinitHeader, Header.WithCount, Lawful;
    if z.up[0] == Zrinit(z.r) {
      ZrinitDue(z);
      OfferPasses(z, Tx.Feed(z.s, HeaderCore(z.up[0])).tx);
      PassTells(z, Tx.Feed(z.s, HeaderCore(z.up[0])));
    } else {
      OfferAnswered(z);
      if z.r.active {
        PositionTells(z);
      } else {
        SkipTells(z);
      }
    }
  }

  /** Another ZRINIT changes nothing while a file is on offer. */
  lemma OfferPasses(z: Sys, s': Tx.TxState)
    requires Lawful(z) && z.s.phase == Tx.WaitFilePos && z.up != [] && z.up[0] == Zrinit(z.r)
    requires Alike(Initiated(z.s), s') && (z.r.events != [] ==> |z.up| > 1 || z.r.phase == Rx.FileAcceptPending)
    ensures Lawful(Passed(z, s'))
  {
    hide Rx.ZrinitHeader, Header.WithCount, Begun, Sendable, Common, Tx.ZfileFrame, Filed, Asking, Trailing;
    hide Hello, Transferring, Closing, Leaving, Left, Stale, Holding, Requested;
    CommonPasses(z, s');
    if z.r.phase != Rx.FileBegin || z.down != [] {
      StaleLess(z.up, Zrinit(z.r));
      TrailingPasses(z, z.next - 1, ZfileMsgs(z.Current()), s');
    } else if z.r.active {
      RequestPasses(z, s');
    } else {
      PositionFrames(z.r.count);
      HoldingLess(z.up, Zrinit(z.r), Rx.ZSKIP_HEADER);
      ZrinitFrame(z.r);
    }
  }

  /** What the receiver is at does not look at answers or at the sender. */
  lemma TrailingPasses(z: Sys, k: nat, tail: seq<Tx.Msg>, s': Tx.TxState)
    requires k <= |z.files| && z.up != []
    ensures Trailing(z, k, tail) <==> Trailing(Passed(z, s'), k, tail)
  {
    hide Filed, Header.WithCount;
  }

  lemma RequestPasses(z: Sys, s': Tx.TxState)
    requires 1 <= z.next <= |z.files| && Sendable(z.Current()) && Requested(z) && z.up[0] == Zrinit(z.r)
    requires z.r.events != [] ==> |z.up| > 1
    ensures Requested(Passed(z, s'))
  {
    hide Rx.ZrinitHeader, Header.WithCount, Filed, Holding, Sendable;
    PositionFrames(z.r.count);
    ZrinitFrame(z.r);
    HoldingSome(z.up, Zrinit(z.r), Zrpos(z.r.count));
    HoldingLess(z.up, Zrinit(z.r), Zrpos(z.r.count));
    HoldingSome(z.up[1..], Zrinit(z.r), Zrpos(z.r.count));
  }

  lemma HoldingSome(up: seq<Header>, zrinit: Header, h: Header)
    requires Holding(up, zrinit, h)
    ensures up != [] && (up[0] == zrinit || up[0] == h)
  {
  }

  /** Any other answer is the one the receiver owes. */
  lemma OfferAnswered(z: Sys)
    requires Due(z) && z.s.phase == Tx.WaitFilePos && z.up[0] != Zrinit(z.r)
    ensures 1 <= z.next <= |z.files| && Sendable(z.Current()) && Common(z)
    ensures z.r.phase == Rx.FileBegin && z.down == [] && Stale(z.up[1..], Zrinit(z.r))
    ensures z.r.active ==> Requested(z) && z.up[0] == Zrpos(z.r.count) && z.r.events == []
    ensures !z.r.active ==> z.up[0] == Rx.ZSKIP_HEADER
    ensures !z.r.active ==> Between(z.r) && z.r.events == [] && z.started == z.next && Filed(z.files, z.disk, z.next, z.r.manual)
  {
    hide Rx.ZrinitHeader, Header.WithCount, Begun, Sendable, Common, Tx.ZfileFrame, Filed, Asking, Trailing, Tx.Inv;
    hide Hello, Transferring, Closing, Leaving, Left, Stale, Holding, Requested;
    if z.r.phase != Rx.FileBegin || z.down != [] {
      StaleLess(z.up, Zrinit(z.r));
    } else if z.r.active {
      RequestAnswered(z);
    } else {
      HoldingSome(z.up, Zrinit(z.r), Rx.ZSKIP_HEADER);
      HoldingLess(z.up, Zrinit(z.r), Rx.ZSKIP_HEADER);
    }
  }

  lemma RequestAnswered(z: Sys)
    requires 1 <= z.next <= |z.files| && Sendable(z.Current()) && Requested(z) && z.up[0] != Zrinit(z.r)
    requires z.r.events != [] ==> |z.up| > 1
    ensures z.up[0] == Zrpos(z.r.count) && Stale(z.up[1..], Zrinit(z.r)) && z.r.events == []
    ensures z.up[1..] != [] && z.r.fileSize <= z.r.count ==> z.hasty
  {
    hide Rx.ZrinitHeader, Header.WithCount, Filed, Holding, Sendable;
    HoldingSome(z.up, Zrinit(z.r), Zrpos(z.r.count));
    HoldingLess(z.up, Zrinit(z.r), Zrpos(z.r.count));
    if |z.up| > 1 {
      assert z.up[1..][|z.up| - 2] == z.up[|z.up| - 1];
    }
  }

  lemma FrameOpened(s: Tx.TxState, offset: u32)
    ensures
      var t := Tx.OpenFrame(s, offset);
      && t.phase == Tx.NeedFileData && t.needsHeader && t.request.Some? && t.request.value.offset == offset
      && t == s.(frameRemaining := t.frameRemaining, needsHeader := true, request := t.request, phase := Tx.NeedFileData)
  {
    hide Tx.DivCeil;
  }

  /** The position asked for: a frame there, or the end of the file. */
  lemma PositionTells(z: Sys)
    requires Due(z) && z.s.phase == Tx.WaitFilePos && z.up[0] != Zrinit(z.r) && z.r.active
    ensures Tells(z, Tx.Feed(z.s, HeaderCore(z.up[0])))
  {
    hide Tx.Feed, HeaderCore, Tx.Inv, Tells, Rx.ZrinitHeader, Header.WithCount, Lawful, Requested, Tx.OpenFrame, Stale;
    OfferAnswered(z);
    OfferUnblocked(z);
    FrameOpened(z.s, z.r.count);
    PositionTold(z.s, z.up[0], z.r.count);
    if z.r.count < z.s.fileSize {
      PositionOpens(z, Tx.OpenFrame(z.s, z.r.count));
    } else {
      PositionEnds(z);
    }
  }

  lemma OfferUnblocked(z: Sys)
    requires Due(z)
    ensures z.s.reader == FRESH
  {
    hide Tx.Inv, Rx.ZrinitHeader, Begun, Sendable, Hello, Offering, Transferring, Closing, Trailing, Leaving, Left, Stale;
  }

  lemma PositionOpens(z: Sys, t: Tx.TxState)
    requires 1 <= z.next <= |z.files| && Sendable(z.Current()) && Common(z) && Requested(z) && z.s.phase == Tx.WaitFilePos
    requires z.s.out == [] && z.s.sent == 0 && z.r.phase == Rx.FileBegin && z.r.active && z.r.events == []
    requires z.up != []
    requires Stale(z.up[1..], Zrinit(z.r)) && z.r.count < z.s.fileSize && z.r.out.None?
    requires t.phase == Tx.NeedFileData && t.needsHeader && t.request.Some? && t.request.value.offset == z.r.count
    requires t == z.s.(frameRemaining := t.frameRemaining, needsHeader := true, request := t.request, phase := Tx.NeedFileData)
    ensures Tells(z, Tx.Fed.Fed(t))
  {
    hide Rx.ZrinitHeader, Header.WithCount, Begun, Filed, Stale, Holding, Sendable, Chain, Lawful;
    var u := Told(z, t);
    assert u.down[u.stray..] == [];
    assert u.persisted == u.Current().content[u.start..u.r.count];
    FlowingIsLawful(u);
  }

  lemma PositionEnds(z: Sys)
    requires 1 <= z.next <= |z.files| && Sendable(z.Current()) && Common(z) && Requested(z) && z.s.phase == Tx.WaitFilePos
    requires z.s.out == [] && z.s.sent == 0 && z.s.request.None?
    requires z.r.phase == Rx.FileBegin && z.r.active && z.r.events == [] && z.r.out.None?
    requires z.up[0] != Zrinit(z.r) && Stale(z.up[1..], Zrinit(z.r)) && z.r.count >= z.s.fileSize
    ensures Tells(z, Tx.Fed.Fed(z.s.(out := [ZeofMsg(z.r.count)], sent := 0, phase := Tx.WaitFileDone)))
  {
    hide Rx.ZrinitHeader, Header.WithCount, Begun, Filed, Stale, Holding, Sendable;
    hide Hello, Offering, Transferring, Trailing, Leaving, Left;
    RequestAnswered(z);
    assert z.down + [ZeofMsg(z.r.count)] == [ZeofMsg(z.r.count)];
  }

  lemma SkipTells(z: Sys)
    requires Due(z) && z.s.phase == Tx.WaitFilePos && z.up[0] != Zrinit(z.r) && !z.r.active
    ensures Tells(z, Tx.Feed(z.s, HeaderCore(z.up[0])))
  {
    hide Tx.Feed, HeaderCore, Tx.Inv, Tells, Rx.ZrinitHeader, Header.WithCount, Lawful, Requested, Stale, Common;
    OfferAnswered(z);
    OfferUnblocked(z);
    ZskipTold(z.s);
    SkipEnds(z);
  }

  lemma SkipEnds(z: Sys)
    requires 1 <= z.next <= |z.files| && Sendable(z.Current()) && Common(z) && z.s.phase == Tx.WaitFilePos
    requires z.s.out == [] && z.s.sent == 0 && z.s.request.None?
    requires z.down == [] && z.up != [] && Stale(z.up[1..], Zrinit(z.r)) && Between(z.r) && z.r.events == []
    requires z.started == z.next && Filed(z.files, z.disk, z.next, z.r.manual)
    ensures
      Tells(z, Tx.Fed.Fed(z.s.(hasFile := false, frameRemaining := 0, event := Some(Tx.FileCompleted), phase := Tx.ReadyForFile)))
  {
    hide Rx.ZrinitHeader, Header.WithCount, Begun, Filed, Stale, Sendable;
    hide Hello, Offering, Transferring, Closing, Leaving, Left;
  }

  // ---------------------------------------------------------------------
  // The data transfer
  // ---------------------------------------------------------------------

  /** An acknowledgement or a rewind: the next frame, or the end of the file. */
  lemma TransferTells(z: Sys)
    requires Due(z) && z.s.phase == Tx.WaitFileAck
    ensures Tells(z, Tx.Feed(z.s, HeaderCore(z.up[0])))
  {
    hide Tx.Feed, HeaderCore, Tx.Inv, Tells, Rx.ZrinitHeader, Header.WithCount, Lawful, Transferring, Common;
    FlowingIsLawful(z);
    if z.up[0] == Zrinit(z.r) {
      ZrinitDue(z);
      TransferPasses(z, Tx.Feed(z.s, HeaderCore(z.up[0])).tx);
      PassTells(z, Tx.Feed(z.s, HeaderCore(z.up[0])));
    } else {
      AnswerTells(z);
    }
  }

  lemma TransferPasses(z: Sys, s': Tx.TxState)
    requires Flowing(z) && z.s.phase == Tx.WaitFileAck && z.up != [] && z.up[0] == Zrinit(z.r) && Alike(z.s, s')
    ensures Lawful(Passed(z, s'))
  {
    hide Rx.ZrinitHeader, Header.WithCount, Lawful, Common, Filed, Persisting, Receiving, Awaiting, Sendable;
    CommonPasses(z, s');
    var t := Passed(z, s');
    PersistingStill(z, t);
    if z.r.phase == Rx.FileReadingSubpacket {
      ReceivingPasses(z, s');
    } else {
      AwaitingPasses(z, s');
    }
    FlowingIsLawful(t);
  }

  lemma ReceivingPasses(z: Sys, s': Tx.TxState)
    requires 1 <= z.next <= |z.files| && z.r.count <= |z.Current().content|
    requires Receiving(z) && z.up != [] && Alike(z.s, s')
    ensures Receiving(Passed(z, s'))
  {
    hide Rx.ZrinitHeader, Chain, Stale;
    StaleLess(z.up, Zrinit(z.r));
  }

  lemma AwaitingPasses(z: Sys, s': Tx.TxState)
    requires 1 <= z.next <= |z.files| && Awaiting(z) && z.up != [] && z.up[0] == Zrinit(z.r) && Alike(z.s, s')
    ensures Awaiting(Passed(z, s'))
  {
    hide Rx.ZrinitHeader, Chain, Stale, Closed, Header.WithCount, AllData;
    PositionFrames(z.r.count);
    ZrinitFrame(z.r);
    if z.r.phase == Rx.FileBegin {
      StaleLess(z.up, Zrinit(z.r));
    } else {
      ClosedLess(z.up, Zrinit(z.r), if z.r.reader.resyncing then Zrpos(z.r.count) else Zack(z.r.count));
    }
  }

  lemma AnswerTells(z: Sys)
    requires Due(z) && Flowing(z) && z.s.phase == Tx.WaitFileAck && z.up[0] != Zrinit(z.r)
    ensures Tells(z, Tx.Feed(z.s, HeaderCore(z.up[0])))
  {
    hide Tx.Feed, HeaderCore, Tx.Inv, Tells, Rx.ZrinitHeader, Header.WithCount, Lawful, Transferring, Tx.OpenFrame;
    AnswerDue(z);
    OfferUnblocked(z);
    FrameOpened(z.s, z.r.count);
    PositionTold(z.s, z.up[0], z.r.count);
    if z.r.count < z.s.fileSize {
      AnswerOpens(z, Tx.OpenFrame(z.s, z.r.count));
    } else {
      AnswerEnds(z);
    }
  }

  /** The last answer comes alone. */
  lemma AnswerDue(z: Sys)
    requires Flowing(z) && z.s.phase == Tx.WaitFileAck && z.up != [] && z.up[0] != Zrinit(z.r)
    ensures |z.up| == 1 && z.r.phase == Rx.FileWaitingSubpacket && z.stray == |z.down| && z.r.events == []
    ensures z.r.sub.Resting? && z.r.reader.scan.Seeking? && (z.r.reader.resyncing || z.r.reader == FRESH)
    ensures AllData(z.down[..z.stray]) && (z.stray > 0 ==> z.r.reader.resyncing)
    ensures if z.r.reader.resyncing then z.up[0] == Zrpos(z.r.count) && z.r.count < |z.Current().content|
            else z.up[0] == Zack(z.r.count) && z.reach == z.r.count && z.down == []
  {
    hide Rx.ZrinitHeader, Chain, Stale, Closed, Header.WithCount, AllData, Common, Filed, Persisting, Sendable;
    if z.r.phase == Rx.FileReadingSubpacket || z.r.phase == Rx.FileBegin {
      StaleLess(z.up, Zrinit(z.r));
    } else {
      ClosedLess(z.up, Zrinit(z.r), if z.r.reader.resyncing then Zrpos(z.r.count) else Zack(z.r.count));
    }
  }

  lemma AnswerOpens(z: Sys, t: Tx.TxState)
    requires Flowing(z) && z.s.phase == Tx.WaitFileAck && |z.up| == 1 && z.r.phase == Rx.FileWaitingSubpacket
    requires z.s.out == [] && z.s.sent == 0 && z.stray == |z.down| && z.r.events == [] && z.r.out.None?
    requires z.r.sub.Resting? && z.r.reader.scan.Seeking? && (z.r.reader.resyncing || z.r.reader == FRESH)
    requires AllData(z.down[..z.stray]) && (z.stray > 0 ==> z.r.reader.resyncing) && z.r.count < z.s.fileSize
    requires !z.r.reader.resyncing ==> z.reach == z.r.count
    requires t.phase == Tx.NeedFileData && t.needsHeader && t.request.Some? && t.request.value.offset == z.r.count
    requires t == z.s.(frameRemaining := t.frameRemaining, needsHeader := true, request := t.request, phase := Tx.NeedFileData)
    ensures Tells(z, Tx.Fed.Fed(t))
  {
    hide Rx.ZrinitHeader, Header.WithCount, Begun, Filed, Sendable, Chain, AllData, Lawful, Persisting;
    var u := Told(z, t);
    assert z.down + [] == z.down;
    assert u.down[u.stray..] == [];
    PersistingStill(z, u);
    FlowingIsLawful(u);
  }

  lemma AnswerEnds(z: Sys)
    requires Flowing(z) && z.s.phase == Tx.WaitFileAck && |z.up| == 1 && z.r.phase == Rx.FileWaitingSubpacket
    requires z.s.out == [] && z.s.sent == 0 && z.s.request.None? && z.stray == |z.down| && z.r.events == []
    requires z.r.out.None? && z.r.sub.Resting? && (z.r.reader.resyncing || z.r.reader == FRESH)
    requires z.r.count >= z.s.fileSize && (z.r.reader.resyncing ==> z.r.count < |z.Current().content|)
    requires !z.r.reader.resyncing ==> z.down == []
    ensures Tells(z, Tx.Fed.Fed(z.s.(out := [ZeofMsg(z.r.count)], sent := 0, phase := Tx.WaitFileDone)))
  {
    hide Rx.ZrinitHeader, Header.WithCount, Begun, Filed, Sendable, Chain, AllData;
    hide Hello, Offering, Trailing, Leaving, Left, Receiving, Awaiting;
    assert z.down + [ZeofMsg(z.r.count)] == [ZeofMsg(z.r.count)];
    assert z.up[1..] == [];
  }

  // ---------------------------------------------------------------------
  // The end of a file and of the session
  // ---------------------------------------------------------------------

  lemma ClosingTells(z: Sys)
    requires Due(z) && z.s.phase == Tx.WaitFileDone
    ensures Tells(z, Tx.Feed(z.s, HeaderCore(z.up[0])))
  {
    hide Tx.Feed, HeaderCore, Tx.Inv, Tells, Rx.ZrinitHeader, Header.WithCount, Common, Stale, Settled, Whole, Filed;
    StaleLess(z.up, Zrinit(z.r));
    ZrinitDue(z);
    ClosingReports(z, Tx.Feed(z.s, HeaderCore(z.up[0])));
  }

  /** What the receiver's side has come to is its own business. */
  lemma SideSame(z: Sys, t: Sys, k: nat)
    requires t == z.(s := t.s, down := t.down, up := t.up, reach := t.reach) && k <= |z.files|
    ensures Settled(z, k) <==> Settled(t, k)
    ensures Lagging(z, k) <==> Lagging(t, k)
  {
    hide Filed;
  }

  lemma WholeSame(z: Sys, t: Sys, k: nat)
    requires t == z.(s := t.s, down := t.down, up := t.up, reach := t.reach) && k <= |z.files|
    ensures Whole(z, k) <==> Whole(t, k)
  {
  }

  lemma ClosingReports(z: Sys, f: Tx.Fed)
    requires Lawful(z) && z.s.phase == Tx.WaitFileDone && z.up != [] && z.s.out == [] && z.s.request.None?
    requires z.r.events != [] ==> |z.up| > 1 || z.r.phase == Rx.FileAcceptPending
    requires f.Fed? && Alike(Initiated(z.s), f.tx)
    ensures Tells(z, f)
  {
    hide Rx.ZrinitHeader, Header.WithCount, Begun, Filed, Stale, Sendable, Whole;
    hide Hello, Offering, Transferring, Leaving, Left, Settled;
    StaleLess(z.up, Zrinit(z.r));
    assert z.down + [] == z.down;
    assert [ZeofMsg(z.r.count)] + [] == [ZeofMsg(z.r.count)];
    SideSame(z, Told(z, f.tx), z.next);
    WholeSame(z, Told(z, f.tx), z.next);
    if z.down == [] {
      SettledBetween(z, z.next);
    }
  }

  lemma ReadyTells(z: Sys)
    requires Due(z) && z.s.phase == Tx.ReadyForFile
    ensures Tells(z, Tx.Feed(z.s, HeaderCore(z.up[0])))
  {
    hide Tx.Feed, HeaderCore, Tx.Inv, Tells, Rx.ZrinitHeader, Header.WithCount, Common, Stale, Trailing;
    StaleLess(z.up, Zrinit(z.r));
    ZrinitDue(z);
    var s' := Tx.Feed(z.s, HeaderCore(z.up[0])).tx;
    CommonPasses(z, s');
    TrailingPasses(z, z.next, [], s');
    PassTells(z, Tx.Feed(z.s, HeaderCore(z.up[0])));
  }

  /** Its answer ends the session, and so does a ZRINIT in front of that. */
  lemma LeavingTells(z: Sys)
    requires Due(z) && z.s.phase == Tx.WaitFinish
    ensures Tells(z, Tx.Feed(z.s, HeaderCore(z.up[0])))
  {
    hide Tx.Feed, HeaderCore, Tx.Inv, Tells, Rx.ZrinitHeader, Lawful, Alike;
    ZrinitDue(z);
    OfferUnblocked(z);
    ZfinTold(z.s);
    LeavingAnswer(z);
    AlikeItself(Ended(z.s));
    LeavingEnds(z, Tx.Feed(z.s, HeaderCore(z.up[0])));
  }

  lemma AlikeItself(s: Tx.TxState)
    ensures Alike(s, s)
  {
  }

  lemma LeavingAnswer(z: Sys)
    requires Lawful(z) && z.s.phase == Tx.WaitFinish && z.up != []
    ensures z.up[0] == Zrinit(z.r) || z.up[0] == ZFIN_HEADER
  {
    hide Rx.ZrinitHeader, Common, Trailing, Stale, Closed, Gone, Sendable;
    if z.down != [] {
      StaleLess(z.up, Zrinit(z.r));
    } else {
      ClosedLess(z.up, Zrinit(z.r), ZFIN_HEADER);
    }
  }

  lemma LeavingEnds(z: Sys, f: Tx.Fed)
    requires Lawful(z) && z.s.phase == Tx.WaitFinish && z.up != [] && f.Fed? && Alike(Ended(z.s), f.tx)
    requires z.s.request.None?
    ensures Tells(z, f)
  {
    hide Rx.ZrinitHeader, Begun, Sendable, Stale, Closed, Filed, Whole, Header.WithCount;
    hide Hello, Offering, Transferring, Closing, Settled, Lagging;
    SideSame(z, Told(z, f.tx), z.next);
    assert [ZFIN_MSG] + [Tx.Over] == [ZFIN_MSG, Tx.Over];
    assert [ZeofMsg(z.r.count)] + [ZFIN_MSG] + [Tx.Over] == [ZeofMsg(z.r.count)] + [ZFIN_MSG, Tx.Over];
  }

  /** Every delivery to the sender keeps what holds. */
  lemma UpTells(z: Sys)
    requires Due(z)
    ensures Tells(z, Tx.Feed(z.s, HeaderCore(z.up[0])))
  {
    hide Tx.Feed, Lawful, Tells, HeaderCore, Tx.Requested;
    match z.s.phase {
      case WaitReceiverInit => HelloTells(z);
      case WaitFilePos => OfferingTells(z);
      case NeedFileData => assert false;
      case WaitFileAck => TransferTells(z);
      case WaitFileDone => ClosingTells(z);
      case ReadyForFile => ReadyTells(z);
      case WaitFinish => LeavingTells(z);
      case Finished => assert false;
    }
  }
}
