/** The joined system keeps its invariant: what the callers do on an event, what the
    timers add, and with that every step. */
module ProtocolSafety {
  import opened Primitives
  import opened HeaderCodec
  import opened Subpackets
  import opened FileMetadata
  import opened Protocol
  import opened ProtocolDown
  import opened ProtocolTransfer
  import opened ProtocolUp
  import Tx = SenderSpec
  import Rx = ReceiverSpec
  import TxInvariant = SenderInvariant
  import RxInvariant = ReceiverInvariant

  // ---------------------------------------------------------------------
  // Events of the receiver
  // ---------------------------------------------------------------------

  /** The receiver's caller has seen to the oldest event. */
  function Seen(z: Sys): Sys
    requires z.r.events != []
  {
    Noted(z.(r := Rx.PopEvent(z.r)), z.r.events[0])
  }

  lemma SeenParts(z: Sys)
    requires z.r.events != []
    ensures
      var t := Seen(z);
      && t == z.(r := z.r.(events := z.r.events[1..]), disk := t.disk, started := t.started, persisted := t.persisted)
      && (z.r.events[0] != Rx.FileStart ==> t.started == z.started && t.persisted == z.persisted)
      && (z.r.events[0] == Rx.FileStart ==> t.started == z.started + 1 && t.persisted == [])
      && (z.r.events[0] == Rx.FileComplete ==> t.disk == z.disk + [Kept(z.start, z.persisted)])
      && (z.r.events[0] != Rx.FileComplete ==> t.disk == z.disk)
  {
  }

  lemma CommonSeen(z: Sys)
    requires Common(z) && z.r.events != []
    ensures Common(Seen(z))
  {
    hide Seen, Sendable;
    SeenParts(z);
  }

  lemma SettledSeen(z: Sys, k: nat)
    requires k <= |z.files| && Settled(z, k) && z.r.events != []
    ensures Settled(Seen(z), k) && Seen(z).r.events == []
  {
    hide Seen;
    SeenParts(z);
  }

  lemma TrailingSeen(z: Sys, k: nat, tail: seq<Tx.Msg>)
    requires k <= |z.files| && Trailing(z, k, tail) && z.r.events != []
    ensures Trailing(Seen(z), k, tail) && Seen(z).r.events == []
  {
    hide Seen, Settled, Filed, Whole, Header.WithCount;
    SeenParts(z);
    SettledSeen(z, k);
  }

  lemma GoneSeen(z: Sys)
    requires z.next <= |z.files| && Gone(z) && z.r.events != []
    ensures Gone(Seen(z)) && Seen(z).r.events == []
  {
    hide Seen, Filed;
    SeenParts(z);
  }

  lemma AnnouncedSeen(z: Sys)
    requires z.next > 0 && Announced(z) && z.r.events != []
    ensures Announced(Seen(z)) && Seen(z).r.events == [] && Seen(z).disk == z.disk
  {
    hide Seen;
    SeenParts(z);
  }

  lemma OfferingSeen(z: Sys)
    requires Lawful(z) && z.s.phase == Tx.WaitFilePos && z.r.events != []
    ensures Lawful(Seen(z)) && Seen(z).r.events == []
  {
    hide Seen, Common, Sendable, Filed, Stale, Holding, Asking, Announced, Trailing, Rx.ZrinitHeader, Header.WithCount;
    hide Tx.ZfileFrame, Hello, Transferring, Closing, Leaving, Left;
    SeenParts(z);
    CommonSeen(z);
    if z.r.phase == Rx.FileBegin && z.down != [] {
      TrailingSeen(z, z.next - 1, ZfileMsgs(z.Current()));
    } else {
      AnnouncedSeen(z);
    }
  }

  lemma ClosingSeen(z: Sys)
    requires Lawful(z) && z.s.phase == Tx.WaitFileDone && z.r.events != []
    ensures Lawful(Seen(z)) && Seen(z).r.events == []
  {
    hide Seen, Common, Sendable, Filed, Stale, Settled, Whole, Rx.ZrinitHeader, Header.WithCount;
    hide Hello, Offering, Transferring, Trailing, Leaving, Left;
    SeenParts(z);
    CommonSeen(z);
    SettledSeen(z, z.next);
  }

  lemma TailSeen(z: Sys)
    requires Lawful(z) && z.s.phase in {Tx.ReadyForFile, Tx.WaitFinish, Tx.Finished} && z.r.events != []
    ensures Lawful(Seen(z)) && Seen(z).r.events == []
  {
    hide Seen, Common, Sendable, Stale, Closed, Trailing, Gone, Rx.ZrinitHeader;
    hide Hello, Offering, Transferring, Closing;
    SeenParts(z);
    CommonSeen(z);
    if z.s.phase == Tx.ReadyForFile {
      TrailingSeen(z, z.next, []);
    } else if z.s.phase == Tx.WaitFinish && z.down != [] {
      TrailingSeen(z, z.next, [ZFIN_MSG]);
    } else if |z.down| > 1 {
      TrailingSeen(z, z.next, [ZFIN_MSG, Tx.Over]);
    } else {
      GoneSeen(z);
    }
  }

  lemma NotedKept(z: Sys)
    requires Lawful(z) && z.r.events != []
    ensures Lawful(Seen(z)) && Seen(z).r.events == []
  {
    hide Lawful, Seen;
    NotedWhen(z);
    if z.s.phase == Tx.WaitFilePos {
      OfferingSeen(z);
    } else if z.s.phase == Tx.WaitFileDone {
      ClosingSeen(z);
    } else {
      TailSeen(z);
    }
  }

  lemma NotedWhen(z: Sys)
    requires Lawful(z) && z.r.events != []
    ensures z.s.phase in {Tx.WaitFilePos, Tx.WaitFileDone, Tx.ReadyForFile, Tx.WaitFinish, Tx.Finished}
  {
    hide Common, Sendable, Filed, Persisting, Receiving, Awaiting, Offering, Closing, Trailing, Leaving, Left;
  }

  // ---------------------------------------------------------------------
  // Events of the sender
  // ---------------------------------------------------------------------

  /** The sender's caller has gone on to the next file or the end, for a flat state. */
  function Onward(z: Sys): Sys
  {
    var t := Driven(z);
    t.(down := t.down + t.s.out, s := t.s.(out := [], sent := 0))
  }

  lemma OnwardNext(z: Sys)
    requires 1 <= z.next < |z.files| && Sendable(z.files[z.next])
    requires z.s.phase == Tx.ReadyForFile && z.s.out == [] && z.s.sent == 0
    ensures
      var f := z.files[z.next];
      Onward(z) == z.(
        s := z.s.(fileName := f.name, fileSize := |f.content|, hasFile := true, request := None,
                  frameRemaining := 0, needsHeader := false, phase := Tx.WaitFilePos),
        next := z.next + 1, reach := 0, down := z.down + ZfileMsgs(f))
  {
    hide Tx.ZfileFrame;
  }

  lemma OnwardEnd(z: Sys)
    requires 1 <= z.next == |z.files| && z.s.phase == Tx.ReadyForFile && z.s.out == [] && z.s.sent == 0
    ensures Onward(z) == z.(s := z.s.(finishRequested := true, phase := Tx.WaitFinish),
                            down := z.down + [ZFIN_MSG])
  {
  }

  lemma DrivenKept(z: Sys)
    requires Lawful(z) && z.s.phase == Tx.ReadyForFile && z.s.event.None? && z.s.out == [] && z.s.sent == 0
    ensures Lawful(Onward(z)) && Stage(Onward(z)) < Stage(z)
  {
    hide Onward, Common, Lawful, Sendable;
    ReadyParts(z);
    if z.next < |z.files| {
      OnwardNext(z);
      NextOffered(z);
    } else {
      OnwardEnd(z);
      EndOffered(z);
    }
  }

  lemma ReadyParts(z: Sys)
    requires Lawful(z) && z.s.phase == Tx.ReadyForFile
    ensures 1 <= z.next <= |z.files| && (forall i :: 0 <= i < |z.files| ==> Sendable(z.files[i]))
    ensures Common(z) && Trailing(z, z.next, []) && Stale(z.up, Zrinit(z.r))
  {
    hide Sendable, Trailing, Stale, Begun;
  }

  lemma TrailingOn(z: Sys, t: Sys, k: nat, tail: seq<Tx.Msg>)
    requires k <= |z.files| && Trailing(z, k, [])
    requires t == z.(s := t.s, next := t.next, reach := t.reach, down := z.down + tail)
    ensures Trailing(t, k, tail) && t.r.phase == Rx.FileBegin
  {
    hide Filed, Header.WithCount;
    assert [] + tail == tail && [ZeofMsg(z.r.count)] + [] == [ZeofMsg(z.r.count)];
  }

  lemma NextOffered(z: Sys)
    requires 1 <= z.next < |z.files| && (forall i :: 0 <= i < |z.files| ==> Sendable(z.files[i]))
    requires Common(z) && z.s.phase == Tx.ReadyForFile && Trailing(z, z.next, []) && Stale(z.up, Zrinit(z.r))
    requires z.s.out == [] && z.s.sent == 0 && z.s.event.None?
    requires
      var f := z.files[z.next];
      Onward(z) == z.(
        s := z.s.(fileName := f.name, fileSize := |f.content|, hasFile := true, request := None,
                  frameRemaining := 0, needsHeader := false, phase := Tx.WaitFilePos),
        next := z.next + 1, reach := 0, down := z.down + ZfileMsgs(f))
    ensures Lawful(Onward(z))
  {
    hide Onward, Trailing, Stale, Sendable, Begun, Tx.ZfileFrame, Rx.ZrinitHeader, Requested, Filed;
    hide Hello, Transferring, Closing, Leaving, Left;
    ZfileFirst(z.files[z.next]);
    TrailingOn(z, Onward(z), z.next, ZfileMsgs(z.files[z.next]));
  }

  lemma EndOffered(z: Sys)
    requires 1 <= z.next == |z.files| && (forall i :: 0 <= i < |z.files| ==> Sendable(z.files[i]))
    requires Common(z) && z.s.phase == Tx.ReadyForFile && Trailing(z, z.next, []) && Stale(z.up, Zrinit(z.r))
    requires z.s.event.None? && Onward(z) == z.(s := z.s.(finishRequested := true, phase := Tx.WaitFinish),
                             down := z.down + [ZFIN_MSG])
    ensures Lawful(Onward(z))
  {
    hide Onward, Trailing, Stale, Sendable, Begun, Rx.ZrinitHeader, Gone, Closed;
    hide Hello, Transferring, Closing, Offering, Left;
    TrailingOn(z, Onward(z), z.next, [ZFIN_MSG]);
  }


  /** An event seen to changes nothing else. */
  lemma PoppedKept(z: Sys)
    requires Lawful(z) && z.s.event.Some?
    ensures Lawful(z.(s := Tx.PopEvent(z.s)))
  {
    hide Sendable, Begun, Filed, Hello, Offering, Transferring, Closing, Leaving, Settled, Lagging, Stale;
    var t := z.(s := Tx.PopEvent(z.s));
    SideSame(z, t, z.next);
  }

  // ---------------------------------------------------------------------
  // A new window
  // ---------------------------------------------------------------------

  /** Nothing that holds looks at how much the sender may send at once. */
  lemma WindowKept(z: Sys, n: nat)
    requires Lawful(z)
    ensures Lawful(z.(s := Tx.SetStreamingWindow(z.s, n)))
  {
    hide Lawful;
    var s' := Tx.SetStreamingWindow(z.s, n);
    if z.s.phase == Tx.WaitFilePos {
      OfferWidened(z, s');
    } else if Busy(z) {
      TransferWidened(z, s');
    } else {
      ElseWidened(z, s');
    }
  }

  predicate Widened(s: Tx.TxState, s': Tx.TxState)
  {
    s' == s.(window := s'.window, perAck := s'.perAck)
  }

  lemma CommonWidened(z: Sys, s': Tx.TxState)
    requires Common(z) && Widened(z.s, s')
    ensures Common(z.(s := s'))
  {
    hide Sendable, Begun;
  }

  lemma OfferWidened(z: Sys, s': Tx.TxState)
    requires Lawful(z) && z.s.phase == Tx.WaitFilePos && Widened(z.s, s')
    ensures Lawful(z.(s := s'))
  {
    hide Common, Sendable, Filed, Stale, Holding, Asking, Trailing, Requested, Rx.ZrinitHeader, Header.WithCount;
    hide Tx.ZfileFrame, Hello, Transferring, Closing, Leaving, Left;
    CommonWidened(z, s');
    TrailingWidened(z, z.next - 1, ZfileMsgs(z.Current()), s');
    RequestWidened(z, s');
  }

  lemma TrailingWidened(z: Sys, k: nat, tail: seq<Tx.Msg>, s': Tx.TxState)
    requires k <= |z.files|
    ensures Trailing(z, k, tail) <==> Trailing(z.(s := s'), k, tail)
  {
    hide Filed, Header.WithCount;
  }

  lemma RequestWidened(z: Sys, s': Tx.TxState)
    requires 1 <= z.next <= |z.files| && Sendable(z.Current())
    ensures Requested(z) <==> Requested(z.(s := s'))
  {
    hide Filed, Holding, Sendable, Rx.ZrinitHeader, Header.WithCount;
  }

  lemma TransferWidened(z: Sys, s': Tx.TxState)
    requires Lawful(z) && Busy(z) && Widened(z.s, s')
    ensures Lawful(z.(s := s'))
  {
    hide Lawful, Common, Sendable, Filed, Persisting, Receiving, Awaiting;
    FlowingIsLawful(z);
    CommonWidened(z, s');
    PersistingStill(z, z.(s := s'));
    FrameWidened(z, s');
    FlowingIsLawful(z.(s := s'));
  }

  lemma FrameWidened(z: Sys, s': Tx.TxState)
    requires 1 <= z.next <= |z.files| && z.r.count <= |z.Current().content| && Widened(z.s, s')
    ensures Receiving(z) ==> Receiving(z.(s := s'))
    ensures Awaiting(z) ==> Awaiting(z.(s := s'))
  {
    hide Chain, Stale, Closed, AllData, Rx.ZrinitHeader, Header.WithCount;
  }

  lemma ElseWidened(z: Sys, s': Tx.TxState)
    requires Lawful(z) && !Busy(z) && z.s.phase != Tx.WaitFilePos && Widened(z.s, s')
    ensures Lawful(z.(s := s'))
  {
    hide Common, Sendable, Filed, Stale, Closed, Settled, Lagging, Whole, Rx.ZrinitHeader, Header.WithCount;
    hide Offering, Transferring;
    var t := z.(s := s');
    CommonWidened(z, s');
    SideSame(z, t, z.next);
    WholeSame(z, t, z.next);
  }

  // ---------------------------------------------------------------------
  // Timers
  // ---------------------------------------------------------------------

  /** The receiver's timer has repeated ZRINIT, for a flat state. */
  function Ticked(z: Sys): Sys
  {
    z.(up := z.up + [Zrinit(z.r)], hasty := z.hasty || Hasty(z.r))
  }

  lemma CommonTicked(z: Sys)
    requires Common(z)
    ensures Common(Ticked(z))
  {
    hide Sendable, Begun;
  }

  lemma TrailingTicked(z: Sys, k: nat, tail: seq<Tx.Msg>)
    requires k <= |z.files| && Trailing(z, k, tail)
    ensures Trailing(Ticked(z), k, tail)
  {
    hide Filed, Header.WithCount, Rx.ZrinitHeader;
  }

  lemma OfferingTicked(z: Sys)
    requires Lawful(z) && z.s.phase == Tx.WaitFilePos && z.r.events == [] && z.r.out.None?
    requires z.r.phase == Rx.SessionBegin || z.r.phase == Rx.FileBegin
    ensures Lawful(Ticked(z))
  {
    hide Common, Sendable, Filed, Stale, Holding, Asking, Announced, Trailing, Rx.ZrinitHeader, Header.WithCount;
    hide Tx.ZfileFrame, Hello, Transferring, Closing, Leaving, Left;
    CommonTicked(z);
    if z.r.phase == Rx.SessionBegin {
      StaleMore(z.up, Zrinit(z.r), Zrinit(z.r));
    } else if z.down != [] {
      StaleMore(z.up, Zrinit(z.r), Zrinit(z.r));
      TrailingTicked(z, z.next - 1, ZfileMsgs(z.Current()));
    } else if z.r.active {
      HoldingMore(z.up, Zrinit(z.r), Zrpos(z.r.count));
      AnnouncedTicked(z);
    } else {
      HoldingMore(z.up, Zrinit(z.r), Rx.ZSKIP_HEADER);
    }
  }

  lemma AnnouncedTicked(z: Sys)
    requires z.next > 0
    ensures Announced(z) <==> Announced(Ticked(z))
  {
  }

  lemma TransferTicked(z: Sys)
    requires Lawful(z) && Busy(z) && z.r.phase == Rx.FileBegin && z.r.events == []
    ensures Lawful(Ticked(z))
  {
    hide Common, Sendable, Filed, Stale, Closed, Chain, AllData, Persisting, Rx.ZrinitHeader, Header.WithCount, Lawful;
    FlowingIsLawful(z);
    CommonTicked(z);
    StaleAwaiting(z);
    StaleMore(z.up, Zrinit(z.r), Zrinit(z.r));
    PersistingStill(z, Ticked(z));
    FlowingIsLawful(Ticked(z));
  }

  lemma StaleAwaiting(z: Sys)
    requires Flowing(z) && z.r.phase == Rx.FileBegin
    ensures Stale(z.up, Zrinit(z.r))
  {
    hide Common, Sendable, Filed, Stale, Closed, Chain, AllData, Persisting, Rx.ZrinitHeader, Header.WithCount;
  }

  lemma ClosingTicked(z: Sys)
    requires Lawful(z) && z.s.phase == Tx.WaitFileDone && z.r.phase == Rx.FileBegin && z.r.events == [] && z.r.out.None?
    ensures Lawful(Ticked(z))
  {
    hide Common, Sendable, Closing, Ticked, Rx.ZrinitHeader, Header.WithCount;
    hide Hello, Offering, Transferring, Trailing, Leaving, Left;
    CommonTicked(z);
    TickedParts(z);
    ClosingStill(z);
  }

  lemma ClosingStill(z: Sys)
    requires 1 <= z.next <= |z.files| && Closing(z)
    requires z.r.phase == Rx.FileBegin && z.r.events == [] && z.r.out.None?
    ensures Closing(Ticked(z))
  {
    hide Filed, Stale, Settled, Whole, Rx.ZrinitHeader, Header.WithCount;
    SettledTicked(z, z.next);
    StaleMore(z.up, Zrinit(z.r), Zrinit(z.r));
  }

  lemma SettledTicked(z: Sys, k: nat)
    requires k <= |z.files|
    ensures Settled(z, k) <==> Settled(Ticked(z), k)
    ensures Whole(z, k) <==> Whole(Ticked(z), k)
  {
    hide Filed, Rx.ZrinitHeader;
  }

  lemma TailTicked(z: Sys)
    requires Lawful(z) && z.s.phase in {Tx.ReadyForFile, Tx.WaitFinish, Tx.Finished}
    requires z.r.phase == Rx.FileBegin
    ensures Lawful(Ticked(z))
  {
    hide Common, Sendable, Stale, Closed, Trailing, Rx.ZrinitHeader, Hello, Offering, Transferring, Closing, Ticked;
    CommonTicked(z);
    TickedParts(z);
    if z.s.phase != Tx.Finished {
      StaleMore(z.up, Zrinit(z.r), Zrinit(z.r));
    }
    if z.s.phase == Tx.ReadyForFile {
      TrailingTicked(z, z.next, []);
    } else if z.s.phase == Tx.WaitFinish {
      TrailingTicked(z, z.next, [ZFIN_MSG]);
    } else {
      TrailingTicked(z, z.next, [ZFIN_MSG, Tx.Over]);
    }
  }

  lemma TickedParts(z: Sys)
    ensures Ticked(z) == z.(up := z.up + [Zrinit(z.r)], hasty := Ticked(z).hasty)
  {
  }

  lemma HelloTicked(z: Sys)
    requires Lawful(z) && z.s.phase == Tx.WaitReceiverInit
    ensures Lawful(Ticked(z))
  {
    hide Common, Sendable, Stale, Asking, Rx.ZrinitHeader, Offering, Transferring, Closing, Trailing, Leaving, Left;
    CommonTicked(z);
    StaleMore(z.up, Zrinit(z.r), Zrinit(z.r));
  }

  /** A timer of the receiver repeats ZRINIT, which changes nothing else. */
  lemma RxTickKept(z: Sys)
    requires Lawful(z) && z.r.events == [] && z.r.out.None?
    requires z.r.phase == Rx.SessionBegin || z.r.phase == Rx.FileBegin
    ensures Lawful(Ticked(z))
  {
    hide Lawful, Ticked;
    TickedWhen(z);
    if z.s.phase == Tx.WaitReceiverInit {
      HelloTicked(z);
    } else if z.s.phase == Tx.WaitFilePos {
      OfferingTicked(z);
    } else if Busy(z) {
      TransferTicked(z);
    } else if z.s.phase == Tx.WaitFileDone {
      ClosingTicked(z);
    } else {
      TailTicked(z);
    }
  }

  /** Beyond the offer the receiver has left the handshake. */
  lemma TickedWhen(z: Sys)
    requires Lawful(z)
    ensures z.r.phase == Rx.SessionBegin ==> z.s.phase == Tx.WaitReceiverInit || z.s.phase == Tx.WaitFilePos
  {
    hide Common, Sendable, Filed, Persisting, Receiving, Awaiting, Hello, Offering, Stale, Closed, Whole, Header.WithCount;
  }

  lemma TxTickKept(z: Sys)
    requires Lawful(z) && z.s.phase == Tx.WaitReceiverInit
    ensures Lawful(z.(down := z.down + [ZRQINIT_MSG]))
  {
    hide Sendable, Begun, Stale, Rx.ZrinitHeader, Offering, Transferring, Closing, Trailing, Leaving, Left;
  }

  // ---------------------------------------------------------------------
  // The receiver's caller decides on a file
  // ---------------------------------------------------------------------

  function Chosen(z: Sys, offset: u32): Sys
  {
    z.(r := z.r.(count := offset, phase := Rx.FileBegin, active := true), up := z.up + [Zrpos(offset)], start := offset)
  }

  function Declined(z: Sys): Sys
  {
    z.(r := z.r.(phase := Rx.FileBegin, active := false), up := z.up + [Rx.ZSKIP_HEADER], disk := z.disk + [Skipped])
  }

  /** A caller is asked only about the file on offer. */
  lemma PendingWhen(z: Sys)
    requires Lawful(z) && z.r.phase == Rx.FileAcceptPending
    ensures z.s.phase == Tx.WaitFilePos
  {
    hide Common, Sendable, Filed, Persisting, Receiving, Awaiting, Offering, Stale, Closed, Whole, Header.WithCount;
  }

  lemma ChosenKept(z: Sys, offset: u32)
    requires Lawful(z) && z.r.phase == Rx.FileAcceptPending && z.r.events == []
    ensures Lawful(Chosen(z, offset))
  {
    hide Sendable, Filed, Stale, Holding, Rx.ZrinitHeader, Header.WithCount, Tx.ZfileFrame, Trailing;
    hide Hello, Transferring, Closing, Leaving, Left;
    PendingWhen(z);
    StaleHolds(z.up, Zrinit(z.r), Zrpos(offset));
    PositionFrames(offset);
    ZrinitFrame(z.r);
    assert (z.up + [Zrpos(offset)])[|z.up|] == Zrpos(offset);
  }

  lemma DeclinedKept(z: Sys)
    requires Lawful(z) && z.r.phase == Rx.FileAcceptPending && z.r.events == []
    ensures Lawful(Declined(z))
  {
    hide Sendable, Begun, Stale, Holding, Rx.ZrinitHeader, Header.WithCount, Tx.ZfileFrame, Trailing, Requested;
    hide Hello, Transferring, Closing, Leaving, Left;
    PendingWhen(z);
    StaleHolds(z.up, Zrinit(z.r), Rx.ZSKIP_HEADER);
  }

  // ---------------------------------------------------------------------
  // Every step
  // ---------------------------------------------------------------------

  lemma TxFlushInv(y: Sys)
    requires Inv(y) && Enabled(y, TxFlush)
    ensures Inv(Next(y, TxFlush)) && Flat(Next(y, TxFlush)) == Flat(y)
  {
    hide Tx.Inv, Rx.Inv, Lawful, Tx.WireOf;
    TxInvariant.WireWrittenInv(y.s, |y.s.WireBytes()|);
    Joined(y.down + y.s.out, [], []);
  }

  lemma RxFlushInv(y: Sys)
    requires Inv(y) && Enabled(y, RxFlush)
    ensures Inv(Next(y, RxFlush)) && Flat(Next(y, RxFlush)) == Flat(y)
  {
    hide Tx.Inv, Rx.Inv, Lawful, EncHeader;
    RxInvariant.WireWrittenInv(y.r, |y.r.WireBytes()|);
    Joined(y.up + [y.r.out.value], [], []);
  }

  /** Nothing of a header is out while nothing is queued. */
  lemma RxQuiet(r: Rx.RxState)
    requires Rx.Inv(r)
    ensures r.out.None? ==> r.sent == 0
    ensures r.CanRead() ==> r.out.None?
    ensures r.sub.Writing? && r.out.Some? ==> r.written == |r.buf|
  {
    hide EncHeader, Rx.Checked;
  }

  lemma TxQuiet(s: Tx.TxState)
    requires Tx.Inv(s)
    ensures s.out == [] ==> s.sent == 0
    ensures s.request.Some? <==> s.phase == Tx.NeedFileData
  {
    hide Tx.WireOf, Tx.Requested;
  }

  lemma FlatTx(y: Sys)
    requires y.s.out == [] ==> y.s.sent == 0
    ensures y.s.out == [] ==> Flat(y).s == y.s && Flat(y).down == y.down
    ensures y.down != [] ==> Flat(y).down != [] && Flat(y).down[0] == y.down[0] && Flat(y).down[1..] == y.down[1..] + y.s.out
  {
    Joined(y.down, y.s.out, []);
    Joined(y.down, [], []);
    assert y.s.out == [] ==> y.s.(out := [], sent := 0) == y.s;
  }

  lemma FlatRx(y: Sys)
    requires y.r.out.None? ==> y.r.sent == 0
    ensures y.r.out.None? ==> Flat(y).r == y.r && Flat(y).up == y.up
    ensures y.up != [] ==> Flat(y).up != [] && Flat(y).up[0] == y.up[0] && Flat(y).up[1..] == y.up[1..] + OutOf(y.r)
  {
    Joined(y.up, OutOf(y.r), []);
    Joined(y.up, [], []);
    assert y.r.out.None? ==> y.r.(out := None, sent := 0) == y.r;
  }

  /** A side with nothing queued looks the same flat. */
  lemma FlatSides(y: Sys)
    requires Inv(y)
    ensures y.s.out == [] ==> Flat(y).s == y.s && Flat(y).down == y.down
    ensures y.r.out.None? ==> Flat(y).r == y.r && Flat(y).up == y.up
    ensures y.down != [] ==> Flat(y).down != [] && Flat(y).down[0] == y.down[0] && Flat(y).down[1..] == y.down[1..] + y.s.out
    ensures y.up != [] ==> Flat(y).up != [] && Flat(y).up[0] == y.up[0] && Flat(y).up[1..] == y.up[1..] + OutOf(y.r)
  {
    hide Tx.Inv, Rx.Inv, Lawful, Flat, OutOf;
    RxQuiet(y.r);
    TxQuiet(y.s);
    FlatTx(y);
    FlatRx(y);
  }

  lemma RxRecvInv(y: Sys)
    requires Inv(y) && Enabled(y, RxRecv)
    ensures Inv(Next(y, RxRecv))
  {
    hide Tx.Inv, Rx.Inv, Lawful, Rx.Feed, Item;
    RxReads(y);
    var f := Rx.Feed(y.r, Item(y.down[0]));
    DownLands(Flat(y));
    RxInvariant.FeedInv(y.r, Item(y.down[0]));
    Joined(y.down, y.s.out, []);
    Joined(y.up, OutOf(f.rx), []);
    assert Flat(Next(y, RxRecv)) == Landed(Flat(y), f.rx);
  }

  /** A receiver that can be given a frame sees it in front. */
  lemma RxReads(y: Sys)
    requires Inv(y) && y.down != [] && y.r.CanRead()
    ensures Ripe(Flat(y)) && Flat(y).r == y.r && Flat(y).down[0] == y.down[0] && Flat(y).up == y.up
  {
    hide Tx.Inv, Rx.Inv, Lawful;
    RxQuiet(y.r);
    FlatSides(y);
    NotPending(y);
  }

  /** A caller that has to decide is given no frame to deliver. */
  lemma NotPending(y: Sys)
    requires Inv(y) && y.down != []
    ensures y.r.phase != Rx.FileAcceptPending
  {
    hide Tx.Inv, Rx.Inv, Sendable, Begun, Filed, Stale, Holding, Rx.ZrinitHeader, Header.WithCount, Tx.ZfileFrame;
    hide Hello, Transferring, Closing, Leaving, Left, Trailing, Requested;
    if y.r.phase == Rx.FileAcceptPending {
      PendingWhen(Flat(y));
    }
  }

  lemma TxHears(y: Sys)
    requires Inv(y) && Enabled(y, TxRecv)
    ensures Due(Flat(y)) && Flat(y).s == y.s && Flat(y).up[0] == y.up[0] && Flat(y).down == y.down
  {
    hide Tx.Inv, Rx.Inv, Lawful;
    TxQuiet(y.s);
    FlatSides(y);
  }

  lemma TxRecvInv(y: Sys)
    requires Inv(y) && Enabled(y, TxRecv)
    ensures Inv(Next(y, TxRecv))
  {
    hide Tx.Inv, Rx.Inv, Lawful, Tx.Feed, HeaderCore;
    TxHears(y);
    var f := Tx.Feed(y.s, HeaderCore(y.up[0]));
    UpTells(Flat(y));
    TxInvariant.FeedInv(y.s, HeaderCore(y.up[0]));
    FlatSides(y);
    assert Flat(Next(y, TxRecv)) == Told(Flat(y), f.tx);
  }

  lemma TxReadInv(y: Sys, n: nat)
    requires Inv(y) && Enabled(y, TxRead(n))
    ensures Inv(Next(y, TxRead(n)))
  {
    hide Tx.Inv, Rx.Inv, Lawful, Tx.SubmitFile, Stretch, Flat, Read, Fetched;
    TxQuiet(y.s);
    FlatSides(y);
    ReadFlat(y, n);
    FetchBusy(Flat(y));
    FetchedKept(Flat(y), n);
    TxInvariant.SubmitFileInv(y.s, Stretch(y.Current(), y.s.request.value.offset, n));
    ReadPrompt(Flat(y), n);
  }

  lemma RewindingFlat(y: Sys)
    ensures y.Rewinding() <==> Flat(y).Rewinding()
  {
  }

  lemma ReadFlat(y: Sys, n: nat)
    requires 1 <= y.next <= |y.files| && y.s.request.Some? && y.s.out == [] && y.s.sent == 0
    ensures
      var t := Read(y, n);
      && Flat(y).s == y.s && Flat(y).r == y.r.(out := None, sent := 0) && Flat(y).next == y.next && Flat(y).files == y.files
      && Flat(t) == Fetched(Flat(y), n)
      && t.r == y.r && t.files == y.files && t.next == y.next
      && t.s == Tx.SubmitFile(y.s, Stretch(y.Current(), y.s.request.value.offset, n)).tx
  {
    hide Tx.SubmitFile, Stretch;
    FlatTx(y);
    RewindingFlat(y);
  }

  lemma FetchBusy(z: Sys)
    requires Lawful(z) && Tx.Inv(z.s) && z.s.request.Some?
    ensures Busy(z) && 1 <= z.next <= |z.files| && z.s.fileSize == |z.Current().content|
  {
    hide Lawful, Common, Transferring;
    TxQuiet(z.s);
    FlowingIsLawful(z);
    SizeKnown(z);
  }

  lemma SizeKnown(z: Sys)
    requires Common(z)
    ensures z.s.fileSize == |z.Current().content|
  {
  }

  lemma ReadPrompt(z: Sys, n: nat)
    requires Lawful(z) && Tx.Inv(z.s) && z.s.request.Some? && z.s.out == [] && 1 <= n <= z.s.request.value.len
    ensures Prompt(Tx.SubmitFile(z.s, Stretch(z.Current(), z.s.request.value.offset, n)).tx)
  {
    hide Lawful, Tx.Inv, Tx.SubmitFile, Stretch;
    FetchBusy(z);
    ReadEmits(z.s, z.Current(), n);
  }

  lemma RxWriteInv(y: Sys, n: nat)
    requires Inv(y) && Enabled(y, RxWrite(n))
    ensures Inv(Next(y, RxWrite(n)))
  {
    hide Tx.Inv, Rx.Inv, Lawful, Rx.FileWritten;
    RxQuiet(y.r);
    FlatSides(y);
    var z := Flat(y);
    SavedKept(z, n);
    RxInvariant.FileWrittenInv(y.r, n);
    assert Flat(Next(y, RxWrite(n))) == Saved(z, n);
  }

  lemma RxEventInv(y: Sys)
    requires Inv(y) && Enabled(y, RxEvent)
    ensures Inv(Next(y, RxEvent))
  {
    hide Tx.Inv, Rx.Inv, Lawful, Flat, Noted, Seen;
    SeenFlat(y);
    NotedKept(Flat(y));
    RxInvariant.PopEventInv(y.r);
  }

  lemma SeenFlat(y: Sys)
    requires 1 <= y.next <= |y.files| && y.r.events != []
    ensures
      var t := Next(y, RxEvent);
      && Flat(y).r.events == y.r.events && Flat(t) == Seen(Flat(y)) && t.r == Rx.PopEvent(y.r)
      && t.s == y.s && t.files == y.files && t.next == y.next
    ensures Rx.PopEvent(y.r).events == Seen(Flat(y)).r.events
  {
    hide Flat, Noted;
    PoppedFlat(y);
    SeenParts(Flat(y));
    NotedFlat(y.(r := Rx.PopEvent(y.r)), y.r.events[0]);
  }

  lemma PoppedFlat(y: Sys)
    requires y.r.events != []
    ensures
      var z := Flat(y);
      && z.r.events == y.r.events && Flat(y.(r := Rx.PopEvent(y.r))) == z.(r := Rx.PopEvent(z.r))
  {
  }

  /** The receiver's caller looks at no queue. */
  lemma NotedFlat(y: Sys, e: Rx.Event)
    ensures Flat(Noted(y, e)) == Noted(Flat(y), e)
    ensures
      var t := Noted(y, e);
      t.r == y.r && t.s == y.s && t.files == y.files && t.next == y.next
  {
  }

  lemma TxEventInv(y: Sys)
    requires Inv(y) && Enabled(y, TxEvent)
    ensures Inv(Next(y, TxEvent))
  {
    hide Tx.Inv, Rx.Inv, Lawful, Flat, Next, Mannered, Prompt;
    TxInvariant.PopEventInv(y.s);
    PoppedNext(y);
    PoppedKept(Flat(y));
    InvOf(Next(y, TxEvent));
  }

  lemma PoppedNext(y: Sys)
    requires y.s.event.Some?
    ensures
      var t := Next(y, TxEvent);
      && t == y.(s := Tx.PopEvent(y.s)) && (Prompt(y.s) ==> Prompt(t.s))
      && Flat(y).s.event == y.s.event && Flat(t) == Flat(y).(s := Tx.PopEvent(Flat(y).s))
  {
  }

  lemma TxNextInv(y: Sys)
    requires Inv(y) && Enabled(y, TxNext)
    ensures Inv(Next(y, TxNext)) && Flat(Next(y, TxNext)) == Onward(Flat(y))
  {
    hide Tx.Inv, Rx.Inv, Lawful, Flat, Driven, Onward, Mannered;
    TxQuiet(y.s);
    FlatSides(y);
    DrivenKept(Flat(y));
    DrivenFlat(y);
    DrivenSender(y);
    DrivenPrompt(y);
    InvOf(Next(y, TxNext));
  }

  /** What the driver does leaves the sender sound and the receiver alone. */
  lemma DrivenSender(y: Sys)
    requires 1 <= y.next <= |y.files|
    ensures
      var t := Driven(y);
      (Tx.Inv(y.s) ==> Tx.Inv(t.s)) && t.r == y.r && 1 <= t.next <= |t.files|
  {
    hide Tx.Inv, Tx.StartFile, Tx.Finish;
    if Tx.Inv(y.s) {
      TxInvariant.FinishInv(y.s);
      if y.next < |y.files| {
        var f := y.files[y.next];
        TxInvariant.StartFileInv(y.s, f.name, if |f.content| < 0x1_0000_0000 then Some(|f.content| as u32) else None);
      }
    }
  }

  lemma DrivenPrompt(y: Sys)
    requires y.s.phase == Tx.ReadyForFile && y.s.out == []
    ensures Prompt(Driven(y).s)
  {
    hide Tx.ZfileFrame;
  }

  lemma DrivenFlat(y: Sys)
    requires y.s.out == [] && y.s.sent == 0
    ensures
      var t := Driven(y);
      Flat(t) == Onward(Flat(y))
  {
    hide Driven;
    FlatTx(y);
    DrivenLocal(y, Flat(y));
  }

  /** The driver looks at the sender and the list of files only. */
  lemma DrivenLocal(a: Sys, b: Sys)
    requires a.s == b.s && a.files == b.files && a.next == b.next
    ensures
      var t, u := Driven(a), Driven(b);
      && t.s == u.s && t.next == u.next && (t.reach == u.reach || (t.reach == a.reach && u.reach == b.reach))
      && t == a.(s := t.s, next := t.next, reach := t.reach) && u == b.(s := u.s, next := u.next, reach := u.reach)
  {
    hide Tx.StartFile, Tx.Finish;
  }

  lemma TxWindowInv(y: Sys, n: nat)
    requires Inv(y) && Enabled(y, TxWindow(n))
    ensures Inv(Next(y, TxWindow(n)))
  {
    hide Tx.Inv, Rx.Inv, Lawful, Flat, Next, Mannered, Prompt;
    TxInvariant.SetStreamingWindowInv(y.s, n);
    WindowNext(y, n);
    WindowKept(Flat(y), n);
    InvOf(Next(y, TxWindow(n)));
  }

  lemma WindowNext(y: Sys, n: nat)
    ensures
      var t := Next(y, TxWindow(n));
      && t == y.(s := Tx.SetStreamingWindow(y.s, n)) && (Prompt(y.s) ==> Prompt(t.s))
      && Flat(t) == Flat(y).(s := Tx.SetStreamingWindow(Flat(y).s, n))
  {
  }

  /** What the invariant asks for, given what holds of the flat state. */
  lemma InvOf(y: Sys)
    requires 1 <= y.next <= |y.files| && Tx.Inv(y.s) && Rx.Inv(y.r) && Mannered(y.r) && Prompt(y.s)
    requires Lawful(Flat(y))
    ensures Inv(y)
  {
    hide Tx.Inv, Rx.Inv, Mannered, Prompt, Lawful, Flat;
  }

  lemma TxTickInv(y: Sys)
    requires Inv(y) && Enabled(y, TxTick)
    ensures Inv(Next(y, TxTick))
  {
    hide Tx.Inv, Rx.Inv, Lawful, Flat, Next, Tx.Timeout, Mannered, Prompt;
    TxInvariant.TimeoutInv(y.s);
    TxTickNext(y);
    if y.s.phase == Tx.WaitReceiverInit && y.s.out == [] {
      FlatSides(y);
      TxTickFlat(y);
      TxTickKept(Flat(y));
    }
    InvOf(Next(y, TxTick));
  }

  lemma TxTickNext(y: Sys)
    ensures
      var t := Next(y, TxTick);
      && t == y.(s := Tx.Timeout(y.s).tx) && (Prompt(y.s) ==> Prompt(t.s))
      && (y.s.phase != Tx.WaitReceiverInit || y.s.out != [] ==> t == y)
  {
  }

  lemma TxTickFlat(y: Sys)
    requires y.s.phase == Tx.WaitReceiverInit && y.s.out == []
    ensures Flat(Next(y, TxTick)) == Flat(y).(down := Flat(y).down + [ZRQINIT_MSG]) && Flat(y).s.phase == y.s.phase
  {
    assert y.down + [] == y.down;
  }

  /** The receiver's timer does something only while it waits with nothing queued. */
  predicate Ticking(r: Rx.RxState)
  {
    (r.phase == Rx.SessionBegin || r.phase == Rx.FileBegin) && r.out.None?
  }

  lemma RxTickInv(y: Sys)
    requires Inv(y) && Enabled(y, RxTick)
    ensures Inv(Next(y, RxTick))
    ensures if Ticking(y.r) then Flat(Next(y, RxTick)) == Ticked(Flat(y)) else Next(y, RxTick) == y
  {
    hide Tx.Inv, Rx.Inv, Lawful, Flat, Next, Ticked, Rx.Timeout, Prompt;
    RxQuiet(y.r);
    RxInvariant.TimeoutInv(y.r);
    RxTickNext(y);
    if Ticking(y.r) {
      FlatSides(y);
      RxTickFlat(y);
      RxTickKept(Flat(y));
      InvOf(Next(y, RxTick));
    }
  }

  lemma RxTickNext(y: Sys)
    ensures
      var t := Next(y, RxTick);
      && t == y.(r := Rx.Timeout(y.r).rx, hasty := t.hasty) && (Mannered(y.r) ==> Mannered(t.r))
      && (!Ticking(y.r) ==> t == y)
  {
    hide Rx.ZrinitHeader;
  }

  lemma RxTickFlat(y: Sys)
    requires Ticking(y.r) && y.r.sent == 0
    ensures Flat(Next(y, RxTick)) == Ticked(Flat(y)) && Flat(y).r == y.r
  {
    hide Rx.ZrinitHeader, Flat;
    FlatRx(y);
    FlatAnswer(y, Next(y, RxTick), Zrinit(y.r));
  }

  /** A receiver that queues an answer has sent it, seen flat. */
  lemma FlatAnswer(y: Sys, t: Sys, h: Header)
    requires y.r.out.None? && t.r.out == Some(h)
    requires t == y.(r := t.r, start := t.start, disk := t.disk, hasty := t.hasty)
    ensures Flat(t) == Flat(y).(r := t.r.(out := None, sent := 0), up := Flat(y).up + [h],
                                start := t.start, disk := t.disk, hasty := t.hasty)
    ensures Flat(y).start == y.start && Flat(y).disk == y.disk && Flat(y).hasty == y.hasty
  {
    Joined(y.up, [], []);
  }

  lemma RxAcceptInv(y: Sys, offset: u32)
    requires Inv(y) && Enabled(y, RxAccept(offset))
    ensures Inv(Next(y, RxAccept(offset)))
  {
    hide Tx.Inv, Rx.Inv, Lawful, Flat, Next, Chosen, Rx.AcceptFileAt, Prompt;
    RxQuiet(y.r);
    RxAcceptFlat(y, offset);
    ChosenKept(Flat(y), offset);
    RxInvariant.AcceptFileAtInv(y.r, offset);
    InvOf(Next(y, RxAccept(offset)));
  }

  lemma RxAcceptFlat(y: Sys, offset: u32)
    requires Enabled(y, RxAccept(offset)) && y.r.sent == 0
    ensures
      var t := Next(y, RxAccept(offset));
      && Flat(y).r == y.r && Flat(t) == Chosen(Flat(y), offset)
      && t == y.(r := Rx.AcceptFileAt(y.r, offset).rx, start := offset) && Mannered(t.r)
  {
    hide Header.WithCount, Flat;
    FlatRx(y);
    FlatAnswer(y, Next(y, RxAccept(offset)), Zrpos(offset));
  }

  lemma RxSkipInv(y: Sys)
    requires Inv(y) && Enabled(y, RxSkip)
    ensures Inv(Next(y, RxSkip))
  {
    hide Tx.Inv, Rx.Inv, Lawful, Flat, Next, Declined, Rx.SkipFile, Prompt;
    RxQuiet(y.r);
    RxSkipFlat(y);
    DeclinedKept(Flat(y));
    RxInvariant.SkipFileInv(y.r);
    InvOf(Next(y, RxSkip));
  }

  lemma RxSkipFlat(y: Sys)
    requires Enabled(y, RxSkip) && y.r.sent == 0
    ensures
      var t := Next(y, RxSkip);
      && Flat(y).r == y.r && Flat(t) == Declined(Flat(y))
      && t == y.(r := Rx.SkipFile(y.r).rx, disk := t.disk) && Mannered(t.r)
  {
    hide Flat;
    FlatRx(y);
    FlatAnswer(y, Next(y, RxSkip), Rx.ZSKIP_HEADER);
  }

  lemma CorruptInv(y: Sys, sub: SubWire)
    requires Inv(y) && Enabled(y, Corrupt(sub))
    ensures Inv(Next(y, Corrupt(sub)))
  {
    hide Tx.Inv, Rx.Inv, Lawful, Rx.Feed, SubWire.Bytes, Flat, Survives;
    RxReads(y);
    RxQuiet(y.r);
    DamageLands(y, sub);
    DamageFed(y, sub);
    RxInvariant.FeedInv(y.r, sub.Bytes());
    SpoiltInv(y, Rx.Feed(y.r, sub.Bytes()));
  }

  lemma DamageFed(y: Sys, sub: SubWire)
    requires Flat(y).down != [] && Survives(Flat(y), Rx.Feed(y.r, sub.Bytes()))
    ensures Rx.Feed(y.r, sub.Bytes()).Fed?
  {
    hide Rx.Feed, SubWire.Bytes, Flat, Lawful, Spoilt;
  }

  lemma DamageLands(y: Sys, sub: SubWire)
    requires Inv(y) && Enabled(y, Corrupt(sub))
    ensures Flat(y).down != [] && Survives(Flat(y), Rx.Feed(y.r, sub.Bytes()))
  {
    hide Tx.Inv, Rx.Inv, Lawful, Rx.Feed, SubWire.Bytes, Survives, Lighter, Flat;
    RxReads(y);
    var z := Flat(y);
    DataWhen(z);
    if y.r.phase == Rx.FileReadingSubpacket {
      DamageSurvived(z, sub);
    } else {
      StrayLands(z, sub);
      StraySurvived(z, Rx.Feed(y.r, sub.Bytes()));
    }
  }

  /** A subpacket in front of a receiver that does not read metadata. */
  lemma DataWhen(z: Sys)
    requires Ripe(z) && z.down[0].Data? && (z.r.InSubpacket() ==> z.r.phase == Rx.FileReadingSubpacket)
    ensures Busy(z) && (z.r.phase != Rx.FileReadingSubpacket ==> z.stray > 0)
  {
    hide Rx.Inv, Lawful;
    if z.s.phase == Tx.WaitFilePos {
      NoDataOffered(z);
    } else if Busy(z) {
      DataTransferred(z);
    } else {
      NoDataElsewhere(z);
    }
  }

  lemma NoDataOffered(z: Sys)
    requires Lawful(z) && z.s.phase == Tx.WaitFilePos && z.down != [] && z.r.phase != Rx.FileReadingMetadata
    ensures !z.down[0].Data?
  {
    hide Common, Sendable, Filed, Stale, Holding, Announced, Rx.ZrinitHeader, Header.WithCount, Tx.ZfileFrame, Whole;
    hide Hello, Transferring, Closing, Leaving, Left, Metadata, Sealed, Requested;
    ZfileFirst(z.Current());
    if z.r.phase == Rx.SessionBegin && |z.down| > 2 {
      assert z.down[..|z.down| - 2][0] == z.down[0];
    }
  }

  lemma NoDataElsewhere(z: Sys)
    requires Lawful(z) && !Busy(z) && z.s.phase != Tx.WaitFilePos && z.down != []
    ensures !z.down[0].Data?
  {
    hide Common, Sendable, Filed, Stale, Closed, Rx.ZrinitHeader, Header.WithCount, Whole, Offering, Transferring;
  }

  lemma DataTransferred(z: Sys)
    requires Lawful(z) && Busy(z) && z.down != [] && z.down[0].Data?
    ensures z.r.phase != Rx.FileReadingSubpacket ==> z.stray > 0
  {
    hide Lawful, Common, Sendable, Filed, Stale, Closed, Rx.ZrinitHeader, Header.WithCount, Persisting, Chain, AllData;
    FlowingIsLawful(z);
    assert z.down[0..] == z.down;
  }

  lemma StraySurvived(z: Sys, f: Rx.Fed)
    requires z.down != [] && z.stray > 0 && Lands(z, f) && f.Fed? && f.rx.events == []
    ensures Survives(z, f)
  {
    hide Lawful, Landed;
    LandedParts(z, f.rx);
    assert Landed(z, f.rx).(stray := z.stray - 1) == Landed(z, f.rx);
  }

  lemma SpoiltInv(y: Sys, f: Rx.Fed)
    requires Inv(y) && y.down != [] && y.r.out.None? && y.r.sent == 0
    requires f.Fed? && Rx.Inv(f.rx) && Flat(y).down != [] && Survives(Flat(y), f)
    ensures Inv(y.(r := f.rx, down := y.down[1..], stray := if y.stray > 0 then y.stray - 1 else |y.down| - 1 + |y.s.out|))
  {
    hide Tx.Inv, Rx.Inv, Lawful;
    var y' := y.(r := f.rx, down := y.down[1..], stray := if y.stray > 0 then y.stray - 1 else |y.down| - 1 + |y.s.out|);
    FlatSides(y);
    assert Flat(y') == Spoilt(Flat(y), f.rx);
  }

  /** Nothing that can happen breaks what holds. */
  lemma StepInv(y: Sys, a: Act)
    requires Inv(y) && Enabled(y, a)
    ensures Inv(Next(y, a))
  {
    hide Inv, Next;
    match a {
      case TxFlush => TxFlushInv(y);
      case TxRead(n) => TxReadInv(y, n);
      case TxEvent => TxEventInv(y);
      case TxNext => TxNextInv(y);
      case TxRecv => TxRecvInv(y);
      case TxTick => TxTickInv(y);
      case TxWindow(n) => TxWindowInv(y, n);
      case RxFlush => RxFlushInv(y);
      case RxWrite(n) => RxWriteInv(y, n);
      case RxEvent => RxEventInv(y);
      case RxRecv => RxRecvInv(y);
      case RxTick => RxTickInv(y);
      case RxAccept(offset) => RxAcceptInv(y, offset);
      case RxSkip => RxSkipInv(y);
      case Corrupt(sub) => CorruptInv(y, sub);
    }
  }
}
