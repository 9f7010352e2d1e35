/** What a receiver's timer that fires too soon can break, and that nothing else can:
    the condition under which the sender's reports mean delivery is exact. */
module ProtocolTimers {
  import opened Primitives
  import opened HeaderCodec
  import opened HeaderReading
  import opened Subpackets
  import opened FileMetadata
  import opened Protocol
  import opened ProtocolDeliveries
  import opened ProtocolDown
  import opened ProtocolUp
  import opened ProtocolSafety
  import opened ProtocolRuns
  import Tx = SenderSpec
  import Rx = ReceiverSpec

  // ---------------------------------------------------------------------
  // A timer that fires too soon
  // ---------------------------------------------------------------------

  /** A ZRINIT comes up behind the answer that ends the file at the sender. */
  predicate Misleading(y: Sys)
  {
    && (y.s.phase == Tx.WaitFileDone || (y.s.phase == Tx.WaitFilePos && y.down == [] && y.s.out == []))
    && y.r.phase == Rx.FileBegin && y.r.active && y.r.out.None? && y.r.fileSize <= y.r.count
    && y.up != [] && y.up[|y.up| - 1] == Zrinit(y.r)
  }

  /** The first tick of this kind finds the sender still waiting for an answer. */
  lemma HastyWhen(y: Sys)
    requires Inv(y) && !y.hasty && Hasty(y.r)
    ensures y.s.phase == Tx.WaitFileDone || (y.s.phase == Tx.WaitFilePos && y.down == [] && y.s.out == [])
    ensures y.r.events == []
  {
    hide Tx.Inv, Rx.Inv, Lawful, Flat, Rx.ZrinitHeader;
    FlatSides(y);
    FlatParts(y);
    HastyFlat(Flat(y));
  }

  lemma FlatParts(y: Sys)
    ensures
      var z := Flat(y);
      z.s.phase == y.s.phase && z.hasty == y.hasty && z.down == y.down + y.s.out && z.disk == y.disk && z.next == y.next
  {
  }

  lemma HastyFlat(z: Sys)
    requires Lawful(z) && !z.hasty && Hasty(z.r)
    ensures z.s.phase == Tx.WaitFileDone || (z.s.phase == Tx.WaitFilePos && z.down == [])
  {
    hide Common, Sendable, Begun, Filed, Stale, Closed, Persisting, Receiving, Chain, AllData, Rx.ZrinitHeader;
    hide Header.WithCount, Closing, Whole, Requested, Tx.ZfileFrame;
  }

  /** While the receiver waits for the data of a file, the file is not closed. */
  lemma NotClosed(y: Sys)
    requires Inv(y) && Misleading(y)
    ensures |y.disk| < y.next
  {
    hide Tx.Inv, Rx.Inv, Lawful, Flat, Rx.ZrinitHeader, Header.WithCount;
    FlatSides(y);
    FlatParts(y);
    NotClosedFlat(Flat(y));
  }

  lemma NotClosedFlat(z: Sys)
    requires Lawful(z) && (z.s.phase == Tx.WaitFileDone || (z.s.phase == Tx.WaitFilePos && z.down == []))
    requires z.r.phase == Rx.FileBegin && z.r.active
    ensures |z.disk| < z.next
  {
    hide Common, Sendable, Begun, Stale, Holding, Announced, Whole, Rx.ZrinitHeader, Header.WithCount, Tx.ZfileFrame;
    hide Hello, Transferring, Leaving, Left, Trailing;
  }

  /** What the sender does with the next answer, when one misleads it. */
  lemma MisleadingStep(y: Sys)
    requires Inv(y) && Misleading(y) && y.s.out == []
    ensures Enabled(y, TxRecv)
    ensures
      var t := Next(y, TxRecv);
      && t.up == y.up[1..] && t.disk == y.disk && t.next == y.next
      && if y.s.phase == Tx.WaitFileDone then t.s.event == Some(Tx.FileCompleted) else Misleading(t)
  {
    hide Tx.Inv, Rx.Inv, Lawful, Tx.Feed, HeaderCore, Rx.ZrinitHeader, Header.WithCount, Flat, Initiated, Alike;
    hide Requested;
    MisleadingHears(y);
    if y.s.phase == Tx.WaitFileDone {
      AnswerIsZrinit(Flat(y));
      ZrinitDue(Flat(y));
      InitiatedAs(y.s, Tx.Feed(y.s, HeaderCore(y.up[0])).tx);
      NextTold(y);
    } else {
      OfferMisled(y);
    }
  }

  lemma MisleadingHears(y: Sys)
    requires Inv(y) && Misleading(y) && y.s.out == []
    ensures Enabled(y, TxRecv) && Due(Flat(y)) && Flat(y).s == y.s && Flat(y).r == y.r
    ensures Flat(y).up == y.up && Flat(y).down == y.down
  {
    hide Tx.Inv, Rx.Inv, Lawful, Rx.ZrinitHeader, Flat;
    TxQuiet(y.s);
    FlatSides(y);
    TxHears(y);
  }

  lemma NextTold(y: Sys)
    requires Enabled(y, TxRecv)
    ensures
      var t := Next(y, TxRecv);
      && t.s == Tx.Feed(y.s, HeaderCore(y.up[0])).tx && t.r == y.r && t.up == y.up[1..] && t.down == y.down
      && t.disk == y.disk && t.next == y.next && t.files == y.files && t.hasty == y.hasty
  {
    hide Tx.Feed, HeaderCore;
  }

  lemma AnswerIsZrinit(z: Sys)
    requires Lawful(z) && z.s.phase == Tx.WaitFileDone && z.up != []
    ensures z.up[0] == Zrinit(z.r)
  {
    hide Common, Sendable, Stale, Settled, Filed, Whole, Rx.ZrinitHeader, Header.WithCount;
    hide Hello, Offering, Transferring, Trailing, Leaving, Left;
    StaleLess(z.up, Zrinit(z.r));
  }

  lemma InitiatedAs(s: Tx.TxState, t: Tx.TxState)
    requires Alike(Initiated(s), t)
    ensures s.phase == Tx.WaitFileDone ==> t.event == Some(Tx.FileCompleted)
    ensures s.phase == Tx.WaitFilePos ==> t.phase == Tx.WaitFilePos && t.out == s.out
  {
  }

  lemma OfferMisled(y: Sys)
    requires Inv(y) && Misleading(y) && y.s.phase == Tx.WaitFilePos && Enabled(y, TxRecv)
    ensures
      var t := Next(y, TxRecv);
      t.up == y.up[1..] && t.disk == y.disk && t.next == y.next && Misleading(t)
  {
    hide Tx.Inv, Rx.Inv, Lawful, Tx.Feed, HeaderCore, Rx.ZrinitHeader, Header.WithCount, Flat, Initiated, Alike;
    hide Requested, Tx.OpenFrame, Enabled, Next;
    MisleadingHears(y);
    NextTold(y);
    var z := Flat(y);
    assert |y.up| > 1 ==> y.up[1..][|y.up| - 2] == y.up[|y.up| - 1];
    if y.up[0] == Zrinit(y.r) {
      ZrinitDue(z);
      InitiatedAs(y.s, Tx.Feed(y.s, HeaderCore(y.up[0])).tx);
      MoreBehind(z);
    } else {
      OfferAnswered(z);
      OfferUnblocked(z);
      SizeSame(z);
      PositionTold(y.s, y.up[0], y.r.count);
    }
  }

  lemma SizeSame(z: Sys)
    requires 1 <= z.next <= |z.files| && Sendable(z.Current()) && Common(z) && Requested(z)
    ensures z.s.fileSize == z.r.fileSize
  {
    hide Sendable, Begun, Filed, Holding, Rx.ZrinitHeader, Header.WithCount;
  }

  /** The answer itself is still to come. */
  lemma MoreBehind(z: Sys)
    requires Lawful(z) && z.s.phase == Tx.WaitFilePos && z.r.phase == Rx.FileBegin && z.r.active && z.up != []
    requires z.up[0] == Zrinit(z.r) && z.down == []
    ensures |z.up| > 1
  {
    hide Common, Sendable, Filed, Stale, Holding, Announced, Trailing, Rx.ZrinitHeader, Header.WithCount;
    hide Tx.ZfileFrame, Hello, Transferring, Closing, Leaving, Left;
    PositionFrames(z.r.count);
    ZrinitFrame(z.r);
    HoldingLess(z.up, Zrinit(z.r), Zrpos(z.r.count));
    HoldingSome(z.up[1..], Zrinit(z.r), Zrpos(z.r.count));
  }

  lemma MisleadingFlush(y: Sys)
    requires Inv(y) && Misleading(y) && y.s.out != []
    ensures Enabled(y, TxFlush)
    ensures
      var t := Next(y, TxFlush);
      t.up == y.up && t.disk == y.disk && t.next == y.next && Misleading(t) && t.s.phase == y.s.phase && t.s.out == []
  {
    hide Tx.Inv, Rx.Inv, Lawful, Tx.WireOf, Rx.ZrinitHeader, Flat;
    FlatParts(y);
    SilentWhen(Flat(y));
    FlatEvent(y);
  }

  lemma FlatEvent(y: Sys)
    ensures Flat(y).s.event == y.s.event
  {
  }

  lemma SilentWhen(z: Sys)
    requires Lawful(z) && (z.s.phase == Tx.WaitFileDone || z.s.phase == Tx.WaitFilePos)
    ensures z.s.event.None?
  {
    hide Sendable, Begun, Hello, Offering, Transferring, Closing, Trailing, Leaving, Left;
  }

  /** A misled sender reports a file that is not closed. */
  lemma {:induction false} Misled(y: Sys) returns (acts: seq<Act>)
    requires Inv(y) && Misleading(y)
    ensures Possible(y, acts) && !Reported(Run(y, acts))
    decreases |y.up|, y.s.phase == Tx.WaitFilePos, |y.s.out|
  {
    hide Inv, Misleading, Enabled, Next, Reported;
    if y.s.out != [] {
      MisleadingFlush(y);
      StepInv(y, TxFlush);
      var rest := Misled(Next(y, TxFlush));
      acts := Then(y, TxFlush, rest);
    } else {
      MisleadingStep(y);
      StepInv(y, TxRecv);
      NotClosed(y);
      if y.s.phase == Tx.WaitFileDone {
        acts := Then(y, TxRecv, []);
        NotReported(Next(y, TxRecv));
      } else {
        UpSome(y);
        var rest := Misled(Next(y, TxRecv));
        acts := Then(y, TxRecv, rest);
      }
    }
  }

  lemma UpSome(y: Sys)
    requires Misleading(y)
    ensures y.up != []
  {
  }

  lemma NotReported(y: Sys)
    requires y.s.event == Some(Tx.FileCompleted) && |y.disk| < y.next
    ensures !Reported(y)
  {
  }

  /** The condition is exact: from every state in which the receiver's timer can fire
      that way for the first time, letting it fire leads to a report that is wrong. */
  lemma EarlyReport(y: Sys) returns (acts: seq<Act>)
    requires Inv(y) && !y.hasty && Hasty(y.r)
    ensures |acts| > 0 && acts[0] == RxTick && Possible(y, acts) && !Reported(Run(y, acts))
  {
    hide Inv, Reported, Next, Misleading;
    HastyWhen(y);
    StepInv(y, RxTick);
    TickQueued(y);
    var t := Next(y, RxTick);
    StepInv(t, RxFlush);
    var rest := Misled(Next(t, RxFlush));
    rest := Then(t, RxFlush, rest);
    acts := Then(y, RxTick, rest);
  }

  lemma TickQueued(y: Sys)
    requires Hasty(y.r) && y.r.events == []
    requires y.s.phase == Tx.WaitFileDone || (y.s.phase == Tx.WaitFilePos && y.down == [] && y.s.out == [])
    ensures
      var t := Next(y, RxTick);
      Enabled(t, RxFlush) && Misleading(Next(t, RxFlush))
  {
    hide Rx.ZrinitHeader, EncHeader;
  }

  // ---------------------------------------------------------------------
  // Such a run from the start
  // ---------------------------------------------------------------------

  /** An empty file is on offer to a receiver that decides for itself. */
  predicate Tempting(y: Sys)
  {
    && y.s.phase == Tx.WaitFilePos && y.s.out == [] && !y.r.manual && !y.hasty
    && 1 <= y.next <= |y.files| && y.Current().content == []
  }

  /** The receiver has asked for the empty file. */
  predicate Tempted(y: Sys)
  {
    !y.hasty && y.r.phase == Rx.FileBegin && y.r.active && y.r.fileSize <= y.r.count && y.r.out.Some?
  }

  lemma {:induction false} AskedFor(y: Sys) returns (acts: seq<Act>)
    requires Inv(y) && Tempted(y)
    ensures Possible(y, acts) && !Reported(Run(y, acts))
    decreases |y.r.events|
  {
    hide Inv, Enabled, Next, Reported;
    TemptedNext(y);
    if y.r.events != [] {
      StepInv(y, RxEvent);
      var rest := AskedFor(Next(y, RxEvent));
      acts := Then(y, RxEvent, rest);
    } else {
      StepInv(y, RxFlush);
      var rest := EarlyReport(Next(y, RxFlush));
      acts := Then(y, RxFlush, rest);
    }
  }

  lemma TemptedNext(y: Sys)
    requires Tempted(y)
    ensures y.r.events != [] ==>
              Enabled(y, RxEvent) && Tempted(Next(y, RxEvent)) && |Next(y, RxEvent).r.events| < |y.r.events|
    ensures y.r.events == [] ==>
              Enabled(y, RxFlush) && Hasty(Next(y, RxFlush).r) && !Next(y, RxFlush).hasty
  {
    hide EncHeader;
  }

  /** Before the file is asked for, the offer is under way and nothing is on hand. */
  lemma OfferPending(y: Sys)
    requires Inv(y) && Tempting(y) && (y.r.phase == Rx.SessionBegin || y.r.phase == Rx.FileReadingMetadata)
    ensures y.down != [] && y.r.events == [] && (y.r.out.None? ==> y.r.CanRead())
    ensures Flat(y).s == y.s && Flat(y).down == y.down && Flat(y).files == y.files && Flat(y).next == y.next
  {
    hide Tx.Inv, Rx.Inv, Lawful, Flat;
    FlatSides(y);
    FlatFiles(y);
    PendingFlat(Flat(y));
  }

  lemma FlatFiles(y: Sys)
    ensures
      var z := Flat(y);
      && z.files == y.files && z.next == y.next && z.r.phase == y.r.phase && z.r.events == y.r.events
      && z.r.sub == y.r.sub
  {
  }

  lemma PendingFlat(z: Sys)
    requires Lawful(z) && z.s.phase == Tx.WaitFilePos && (z.r.phase == Rx.SessionBegin || z.r.phase == Rx.FileReadingMetadata)
    ensures z.down != [] && z.r.events == [] && !z.r.sub.Writing?
  {
    hide Common, Sendable, Filed, Stale, Asking, Rx.ZrinitHeader, Header.WithCount, Tx.ZfileFrame;
    hide Hello, Transferring, Closing, Leaving, Left, Trailing, Requested;
    ZfileFirst(z.Current());
  }

  lemma MetadataNext(y: Sys)
    requires Inv(y) && Tempting(y) && y.r.phase == Rx.FileReadingMetadata && y.r.out.None?
    ensures Enabled(y, RxRecv) && Tempted(Next(y, RxRecv))
  {
    hide Inv, Rx.Feed, Item, Introduced;
    OfferPending(y);
    MetadataFed(y);
    RxNext(y);
    IntroducedAsks(y.r, y.Current());
  }

  lemma IntroducedAsks(r: Rx.RxState, f: File)
    requires Sendable(f) && !r.manual
    ensures
      var t := Introduced(r, f);
      t.phase == Rx.FileBegin && t.active && t.fileSize == |f.content| && t.count == 0 && t.out.Some?
  {
    hide Header.WithCount;
  }

  lemma MetadataFed(y: Sys)
    requires Inv(y) && Tempting(y) && y.r.phase == Rx.FileReadingMetadata && y.r.CanRead() && y.down != []
    requires Flat(y).s == y.s && Flat(y).down == y.down && Flat(y).files == y.files && Flat(y).next == y.next
    ensures Sendable(y.Current()) && Rx.Feed(y.r, Item(y.down[0])) == Rx.Fed.Fed(Introduced(y.r, y.Current()))
  {
    hide Inv, Lawful, Rx.Feed, Item, SubWire.Bytes, Metadata, Sealed, Flat, Introduced, Rx.Inv, Tx.ZfileFrame;
    RxReads(y);
    MetadataDue(Flat(y));
    MetadataHeard(y.r, y.Current());
    ItemOfData(Sealed(ZBIN32, ZCRCW, Metadata(y.Current().name, |y.Current().content|)));
  }

  lemma ItemOfData(m: SubWire)
    ensures Item(Tx.Data(m)) == m.Bytes()
  {
  }

  /** A repeated request is answered again; behind the last comes the offer. */
  lemma GreetingNext(y: Sys)
    requires Inv(y) && Tempting(y) && y.r.phase == Rx.SessionBegin && y.r.out.None?
    ensures Enabled(y, RxRecv)
    ensures
      var t := Next(y, RxRecv);
      && Tempting(t) && |t.down| < |y.down|
      && (t.r.phase == Rx.SessionBegin || (t.r.phase == Rx.FileReadingMetadata && t.r.out.None?))
  {
    hide Tx.Inv, Rx.Inv, Lawful, Rx.Feed, Item, HeaderCore, Metadata, Sealed, Rx.ZrinitHeader, Header.WithCount, Flat;
    OfferPending(y);
    RxReads(y);
    RxNext(y);
    GreetingFront(Flat(y));
    ItemOfHead(y.down[0]);
    if y.down[0] == ZRQINIT_MSG {
      ZrqinitHeard(y.r);
    } else {
      ZfileHeard(y.r);
    }
  }

  lemma ItemOfHead(m: Tx.Msg)
    ensures m.Head? ==> Item(m) == HeaderCore(m.header)
  {
  }

  lemma GreetingFront(z: Sys)
    requires Ripe(z) && z.s.phase == Tx.WaitFilePos && z.r.phase == Rx.SessionBegin
    ensures Hears(z.r) && (z.down[0] == ZRQINIT_MSG || z.down[0] == Tx.Head(ZFILE_HEADER))
  {
    hide Common, Sendable, Filed, Stale, Rx.ZrinitHeader, Header.WithCount, Tx.ZfileFrame, Rx.Inv;
    hide Hello, Transferring, Closing, Leaving, Left, Trailing, Requested;
    ZfileFirst(z.Current());
    if |z.down| > 2 {
      assert z.down[..|z.down| - 2][0] == z.down[0];
    }
  }

  lemma RxFlushNext(y: Sys)
    requires Tempting(y) && y.r.out.Some? && y.r.events == []
    ensures Enabled(y, RxFlush)
    ensures
      var t := Next(y, RxFlush);
      Tempting(t) && t.down == y.down && t.r == y.r.(out := None, sent := 0)
  {
    hide EncHeader;
  }

  /** From any state in which an empty file is on offer to a receiver that has not
      taken it up, there is a run on which the sender reports it too soon. */
  lemma {:induction false} EarlyOffer(y: Sys) returns (acts: seq<Act>)
    requires Inv(y) && Tempting(y) && y.r.phase == Rx.SessionBegin
    ensures Possible(y, acts) && !Reported(Run(y, acts))
    decreases |y.down|, y.r.out.Some?
  {
    hide Inv, Enabled, Next, Reported, Tempting, Tempted;
    OfferPending(y);
    if y.r.out.Some? {
      RxFlushNext(y);
      StepInv(y, RxFlush);
      var rest := EarlyOffer(Next(y, RxFlush));
      acts := Then(y, RxFlush, rest);
    } else {
      GreetingNext(y);
      StepInv(y, RxRecv);
      var t := Next(y, RxRecv);
      var rest;
      if t.r.phase == Rx.SessionBegin {
        rest := EarlyOffer(t);
      } else {
        MetadataNext(t);
        StepInv(t, RxRecv);
        rest := AskedFor(Next(t, RxRecv));
        rest := Then(t, RxRecv, rest);
      }
      acts := Then(y, RxRecv, rest);
    }
  }

  /** The sender's report does not mean delivery: a session that starts with an empty
      file has a run on which the sender reports it before the receiver closes it. */
  lemma EmptyFileReportedEarly(files: seq<File>, c: Setup) returns (acts: seq<Act>)
    requires Startable(files, c) && files[0].content == [] && !c.manual
    ensures Possible(Launch(files, c), acts) && !Reported(Run(Launch(files, c), acts))
  {
    hide Inv, Enabled, Next, Reported, Tempting, Launch;
    var y0 := Launch(files, c);
    StartInv(files, c);
    StartShape(files, c);
    FirstSteps(y0);
    StepInv(y0, RxFlush);
    var y1 := Next(y0, RxFlush);
    StepInv(y1, TxFlush);
    var y2 := Next(y1, TxFlush);
    HelloAnswered(y2);
    StepInv(y2, TxRecv);
    var y3 := Next(y2, TxRecv);
    StepInv(y3, TxFlush);
    var y4 := Next(y3, TxFlush);
    acts := EarlyOffer(y4);
    acts := Then(y3, TxFlush, acts);
    acts := Then(y2, TxRecv, acts);
    acts := Then(y1, TxFlush, acts);
    acts := Then(y0, RxFlush, acts);
  }

  /** The sender waits for a receiver, which has said hello. */
  predicate Greeted(y: Sys)
  {
    && y.s.phase == Tx.WaitReceiverInit && y.s.out == [] && y.up == [Zrinit(y.r)]
    && y.r.phase == Rx.SessionBegin && y.r.out.None? && !y.r.manual && !y.hasty
    && 1 <= y.next <= |y.files| && y.Current().content == []
  }

  lemma FirstSteps(y: Sys)
    requires y.s.phase == Tx.WaitReceiverInit && y.s.out != [] && y.s.event.None? && y.up == [] && y.r.events == []
    requires y.r.out == Some(Zrinit(y.r)) && y.r.phase == Rx.SessionBegin && !y.r.manual && !y.hasty
    requires 1 <= y.next <= |y.files| && y.Current().content == []
    ensures Enabled(y, RxFlush) && Enabled(Next(y, RxFlush), TxFlush)
    ensures Greeted(Next(Next(y, RxFlush), TxFlush))
  {
    hide EncHeader, Rx.ZrinitHeader, Tx.WireOf;
    assert [] + [Zrinit(y.r)] == [Zrinit(y.r)];
  }

  lemma HelloAnswered(y: Sys)
    requires Inv(y) && Greeted(y)
    ensures Enabled(y, TxRecv) && Enabled(Next(y, TxRecv), TxFlush)
    ensures
      var t := Next(Next(y, TxRecv), TxFlush);
      Tempting(t) && t.r.phase == Rx.SessionBegin
  {
    hide Tx.Inv, Rx.Inv, Lawful, Tx.Feed, HeaderCore, Rx.ZrinitHeader, Tx.WireOf, Flat, Tx.ZfileFrame;
    TxQuiet(y.s);
    TxHears(y);
    FlatSides(y);
    HelloSender(Flat(y));
    ZrinitTold(y.s, y.r);
    NextTold(y);
    FrameSome(y.s.fileName, y.s.fileSize);
  }

  lemma HelloSender(z: Sys)
    requires Lawful(z) && z.s.phase == Tx.WaitReceiverInit
    ensures z.s.hasFile && z.s.reader == FRESH && !z.s.finishRequested && z.s.event.None?
  {
    hide Sendable, Begun, Stale, Asking, Offering, Transferring, Closing, Trailing, Leaving, Left;
  }

  lemma FrameSome(name: seq<byte>, size: u32)
    ensures Tx.ZfileFrame(name, size) != []
  {
  }

  lemma RxNext(y: Sys)
    requires Enabled(y, RxRecv)
    ensures
      var t := Next(y, RxRecv);
      && t.r == Rx.Feed(y.r, Item(y.down[0])).rx && t.s == y.s && t.down == y.down[1..] && t.hasty == y.hasty
      && t.files == y.files && t.next == y.next
  {
    hide Rx.Feed, Item;
  }
}
