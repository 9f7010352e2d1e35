/** Whole runs of the joined system, with timers and corruption anywhere: what they
    keep safe, and what a timer that fires too soon can break. */
module ProtocolRuns {
  import opened Primitives
  import opened Zdle
  import opened HeaderCodec
  import opened HeaderReading
  import opened Subpackets
  import opened FileMetadata
  import opened Protocol
  import opened ProtocolTransfer
  import opened ProtocolSafety
  import Tx = SenderSpec
  import Rx = ReceiverSpec
  import TxInvariant = SenderInvariant
  import RxInvariant = ReceiverInvariant

  // ---------------------------------------------------------------------
  // Runs
  // ---------------------------------------------------------------------

  predicate Startable(files: seq<File>, c: Setup)
  {
    files != [] && (forall i :: 0 <= i < |files| ==> Sendable(files[i])) && c.bufferLen < 0x1_0000
  }

  lemma StartInv(files: seq<File>, c: Setup)
    requires Startable(files, c)
    ensures Inv(Launch(files, c))
  {
    hide Tx.WireOf, Rx.ZrinitHeader, EncHeader, Lawful, Tx.Inv, Rx.Inv, Tx.StartFile, Tx.SetStreamingWindow;
    var t := Tx.SetStreamingWindow(Tx.Initial(), c.window);
    TxInvariant.InitialInv();
    TxInvariant.SetStreamingWindowInv(Tx.Initial(), c.window);
    TxInvariant.StartFileInv(t, files[0].name, Some(|files[0].content|));
    RxInvariant.InitialInv(c.bufferLen, c.overlapped);
    ModeInv(Rx.Initial(c.bufferLen, c.overlapped), c.manual);
    StartShape(files, c);
    StartLawful(files, c);
  }

  /** The mode is nothing the receiver's invariant looks at. */
  lemma ModeInv(r: Rx.RxState, manual: bool)
    requires Rx.Inv(r)
    ensures Rx.Inv(r.(manual := manual))
  {
    hide EncHeader;
  }

  /** The sender at the start: the first file is on record, and a receiver asked for. */
  lemma StartShape(files: seq<File>, c: Setup)
    requires Startable(files, c)
    ensures
      var y := Launch(files, c);
      && y.s.phase == Tx.WaitReceiverInit && y.s.out == [ZRQINIT_MSG] && y.s.hasFile && y.s.reader == FRESH
      && y.s.fileName == files[0].name && y.s.fileSize == |files[0].content|
      && y.s.event.None? && !y.s.finishRequested
      && y.r == Rx.Initial(c.bufferLen, c.overlapped).(manual := c.manual) && y.r.out == Some(Zrinit(y.r))
      && y == Sys(y.s, y.r, [], [], files, 1, [], 0, 0, [], false, 0, 0)
  {
    hide Rx.ZrinitHeader;
  }

  lemma StartLawful(files: seq<File>, c: Setup)
    requires Startable(files, c)
    ensures Lawful(Flat(Launch(files, c)))
  {
    hide Launch, Rx.ZrinitHeader, Sendable, Offering, Transferring, Closing, Trailing, Leaving, Left;
    StartShape(files, c);
    var y := Launch(files, c);
    assert [] + [ZRQINIT_MSG] == [ZRQINIT_MSG];
    assert [] + [Zrinit(y.r)] == [Zrinit(y.r)];
  }

  /** A run is a list of steps, each enabled when it is taken. */
  predicate Possible(y: Sys, acts: seq<Act>)
    decreases |acts|
  {
    acts != [] ==> Enabled(y, acts[0]) && Possible(Next(y, acts[0]), acts[1..])
  }

  function Run(y: Sys, acts: seq<Act>): Sys
    requires Possible(y, acts)
    decreases |acts|
  {
    if acts == [] then y else Run(Next(y, acts[0]), acts[1..])
  }

  lemma Then(y: Sys, a: Act, rest: seq<Act>) returns (acts: seq<Act>)
    requires Enabled(y, a) && Possible(Next(y, a), rest)
    ensures acts == [a] + rest && Possible(y, acts) && Run(y, acts) == Run(Next(y, a), rest)
  {
    hide Enabled, Next;
    acts := [a] + rest;
    assert acts[1..] == rest;
  }

  lemma {:induction false} RunInv(y: Sys, acts: seq<Act>)
    requires Inv(y) && Possible(y, acts)
    ensures Inv(Run(y, acts)) && Run(y, acts).files == y.files && SetAlike(y.r, Run(y, acts).r)
    decreases |acts|
  {
    hide Inv, Next, Enabled;
    if acts != [] {
      StepInv(y, acts[0]);
      StepKeeps(y, acts[0]);
      RunInv(Next(y, acts[0]), acts[1..]);
    }
  }

  /** The files to send and the receiver's set-up are fixed. */
  lemma StepKeeps(y: Sys, a: Act)
    requires Enabled(y, a)
    ensures Next(y, a).files == y.files && SetAlike(y.r, Next(y, a).r)
  {
    hide Tx.Feed, Rx.Feed, Tx.SubmitFile, Rx.FileWritten, Tx.StartFile, Tx.Finish, Item, HeaderCore, SubWire.Bytes;
    hide Rx.ZrinitHeader, Header.WithCount;
    match a {
      case RxRecv => FeedSet(y.r, Item(y.down[0]));
      case Corrupt(sub) => FeedSet(y.r, sub.Bytes());
      case RxWrite(n) => WriteSet(y.r, n);
      case TxFlush =>
      case TxRead(n) =>
      case TxEvent =>
      case TxNext =>
      case TxRecv =>
      case TxTick =>
      case TxWindow(n) =>
      case RxFlush =>
      case RxEvent =>
      case RxTick =>
      case RxAccept(offset) =>
      case RxSkip =>
    }
  }

  /** What the receiver was set up with is the same. */
  predicate SetAlike(r: Rx.RxState, t: Rx.RxState)
  {
    t.manual == r.manual && t.bufferLen == r.bufferLen && t.overlapped == r.overlapped
  }

  lemma WriteSet(r: Rx.RxState, n: nat)
    ensures SetAlike(r, Rx.FileWritten(r, n).rx)
  {
    hide Rx.FinishSubpacket;
    if r.sub.Writing? {
      FinishSet(r.(written := r.written + Min(n, |r.FileBytes()|)), r.sub.kind);
    }
  }

  lemma HeaderSet(r: Rx.RxState, h: Header)
    ensures SetAlike(r, Rx.HandleHeader(r, h).rx)
  {
    hide Header.WithCount, Header.Count, Rx.ZrinitHeader, Rx.OnZsinit, Rx.OnZfile, Rx.OnZdata, Rx.OnZeof, Rx.OnZfin;
    AnswerSet(r, h);
  }

  lemma AnswerSet(r: Rx.RxState, h: Header)
    ensures SetAlike(r, Rx.OnZsinit(r, h)) && SetAlike(r, Rx.OnZfile(r, h)) && SetAlike(r, Rx.OnZdata(r, h).rx)
    ensures SetAlike(r, Rx.OnZeof(r).rx) && SetAlike(r, Rx.OnZfin(r).rx)
  {
    hide Header.WithCount, Header.Count, Rx.ZrinitHeader;
  }

  lemma FinishSet(r: Rx.RxState, k: SubpacketType)
    ensures SetAlike(r, Rx.FinishSubpacket(r, k).rx)
  {
    hide Header.WithCount;
  }

  lemma CompleteSet(r: Rx.RxState, k: SubpacketType)
    ensures SetAlike(r, Rx.CompleteSubpacket(r, k).rx)
  {
    hide Rx.StartFile, Rx.FinishSubpacket;
    StartSet(r);
    FinishSet(r.(sub := Rx.Writing(k), written := 0), k);
  }

  lemma StartSet(r: Rx.RxState)
    ensures SetAlike(r, Rx.StartFile(r).rx)
  {
    hide ParseInfo, Header.WithCount, Field;
  }

  lemma SubpacketSet(r: Rx.RxState, b: byte)
    ensures SetAlike(r, Rx.TakeSubpacketByte(r, b).rx)
  {
    hide CrcStep, CrcState.Updated, Header.WithCount, KindOf, Rx.CompleteSubpacket, Uncover, Rx.LineTrailer;
    var s := CrcStep(r.crc, r.encoding, b);
    if r.sub.Trailer? && s.verdict.Good? {
      CompleteSet(r.(crc := s.crc), r.sub.kind);
    }
  }

  lemma ByteSet(r: Rx.RxState, b: byte)
    ensures SetAlike(r, Rx.TakeByte(r, b).rx)
  {
    hide ReadStep, Rx.HandleHeader, Rx.TakeSubpacketByte;
    var s := ReadStep(r.reader, b);
    if r.InSubpacket() {
      SubpacketSet(r, b);
    } else if s.outcome.Got? {
      HeaderSet(r.(reader := s.reader), s.outcome.header);
    }
  }

  lemma {:induction false} FeedSet(r: Rx.RxState, wire: seq<byte>)
    ensures SetAlike(r, Rx.Feed(r, wire).rx)
    decreases |wire|
  {
    hide Rx.TakeByte;
    if wire != [] && r.CanRead() {
      ByteSet(r, wire[0]);
      var p := Rx.TakeByte(r, wire[0]);
      if p.Done? {
        FeedSet(p.rx, wire[1..]);
      }
    }
  }

  // ---------------------------------------------------------------------
  // Safety
  // ---------------------------------------------------------------------

  /** What the receiver's caller can rely on, told in files and bytes only. */
  predicate Safe(y: Sys)
  {
    // Every file closed is the file that was sent, from where it was accepted, in order.
    && |y.disk| <= y.started <= y.next <= |y.files|
    && (forall i :: 0 <= i < |y.disk| ==> Faithful(y.files[i], y.disk[i], y.r.manual))
    // Until the next one starts, what is persisted is the beginning of the last.
    && Begun(y.files, y.started, y.start, y.persisted)
    // The receiver reports a file complete only when all of it is persisted.
    && (Rx.FileComplete in y.r.events ==>
          |y.disk| == y.started - 1 && y.persisted == Rest(y.files[y.started - 1], y.start))
    // The receiver's session ends only after the last file.
    && (y.r.phase == Rx.SessionEnd ==> |y.disk| == |y.files|)
  }

  /** What the sender's caller would like to rely on: a file is reported, and the
      session ended, only when the receiver's caller has closed the file. */
  predicate Reported(y: Sys)
  {
    && (y.s.event == Some(Tx.FileCompleted) ==> |y.disk| == y.next)
    && (y.s.phase == Tx.Finished ==> |y.disk| == |y.files|)
  }

  lemma InvSafe(y: Sys)
    requires Inv(y)
    ensures Safe(y) && (!y.hasty ==> Reported(y))
  {
    hide Tx.Inv, Rx.Inv, Lawful, Safe, Reported;
    LawfulSafe(Flat(y));
    SafeFlat(y);
  }

  lemma SafeFlat(y: Sys)
    ensures Safe(y) <==> Safe(Flat(y))
    ensures Reported(y) <==> Reported(Flat(y))
  {
    hide Begun, Faithful;
  }

  lemma LawfulSafe(z: Sys)
    requires Lawful(z)
    ensures Safe(z) && (!z.hasty ==> Reported(z))
  {
    hide Lawful, Common, Safe, Reported, Begun;
    SafeStart(z);
    if z.s.phase == Tx.WaitReceiverInit {
      HelloSafe(z);
    } else if z.s.phase == Tx.WaitFilePos {
      OfferingSafe(z);
    } else if Busy(z) {
      TransferSafe(z);
    } else if z.s.phase == Tx.WaitFileDone {
      ClosingSafe(z);
    } else {
      TailSafe(z);
    }
  }

  lemma SafeStart(z: Sys)
    requires Lawful(z)
    ensures Begun(z.files, z.started, z.start, z.persisted)
    ensures z.s.event == Some(Tx.FileCompleted) ==> z.s.phase == Tx.ReadyForFile
  {
    hide Begun, Sendable, Hello, Offering, Transferring, Closing, Trailing, Leaving, Left, Stale;
  }

  lemma HelloSafe(z: Sys)
    requires Lawful(z) && z.s.phase == Tx.WaitReceiverInit
    ensures Safe(z) && Reported(z)
  {
    hide Sendable, Begun, Stale, Rx.ZrinitHeader, Offering, Transferring, Closing, Trailing, Leaving, Left, Faithful;
  }

  lemma SettledSafe(z: Sys, k: nat)
    requires k <= |z.files| && z.next <= |z.files| && k <= z.next && (Settled(z, k) || Lagging(z, k))
    requires Begun(z.files, z.started, z.start, z.persisted)
    ensures Safe(z) && (Settled(z, k) && z.r.events == [] ==> |z.disk| == k)
  {
    hide Begun, Faithful;
  }

  lemma TrailingSafe(z: Sys, k: nat, tail: seq<Tx.Msg>)
    requires k <= z.next <= |z.files| && Trailing(z, k, tail) && Begun(z.files, z.started, z.start, z.persisted)
    ensures Safe(z) && (!z.hasty ==> |z.disk| == k)
  {
    hide Begun, Safe, Filed, Whole, Header.WithCount;
    SettledSafe(z, k);
    LaggingHasty(z, k);
  }

  lemma LaggingHasty(z: Sys, k: nat)
    requires k <= |z.files|
    ensures Lagging(z, k) ==> z.hasty
  {
  }

  lemma AnnouncedSafe(z: Sys)
    requires 1 <= z.next <= |z.files| && Announced(z) && Filed(z.files, z.disk, z.next - 1, z.r.manual)
    requires z.r.phase != Rx.SessionEnd && Begun(z.files, z.started, z.start, z.persisted)
    ensures Safe(z)
  {
    hide Begun, Faithful;
  }

  lemma OfferingSafe(z: Sys)
    requires Lawful(z) && z.s.phase == Tx.WaitFilePos && Begun(z.files, z.started, z.start, z.persisted)
    requires z.s.event != Some(Tx.FileCompleted)
    ensures Safe(z) && Reported(z)
  {
    hide Common, Sendable, Begun, Stale, Holding, Asking, Announced, Trailing, Rx.ZrinitHeader, Header.WithCount;
    hide Tx.ZfileFrame, Hello, Transferring, Closing, Leaving, Left, Faithful;
    if z.r.phase == Rx.FileBegin && z.down != [] {
      TrailingSafe(z, z.next - 1, ZfileMsgs(z.Current()));
    } else if z.r.phase == Rx.FileAcceptPending || (z.r.phase == Rx.FileBegin && z.r.active) {
      AnnouncedSafe(z);
    }
  }

  lemma TransferSafe(z: Sys)
    requires Lawful(z) && Busy(z) && Begun(z.files, z.started, z.start, z.persisted)
    requires z.s.event != Some(Tx.FileCompleted)
    ensures Safe(z) && Reported(z)
  {
    hide Lawful, Common, Sendable, Begun, Persisting, Receiving, Awaiting, Faithful;
    FlowingIsLawful(z);
  }

  lemma ClosingSafe(z: Sys)
    requires Lawful(z) && z.s.phase == Tx.WaitFileDone && Begun(z.files, z.started, z.start, z.persisted)
    requires z.s.event != Some(Tx.FileCompleted)
    ensures Safe(z) && Reported(z)
  {
    hide Common, Sendable, Begun, Stale, Settled, Rx.ZrinitHeader, Header.WithCount, Faithful;
    hide Hello, Offering, Transferring, Trailing, Leaving, Left;
    if z.down == [] {
      SettledSafe(z, z.next);
    }
  }

  lemma GoneSafe(z: Sys)
    requires z.next == |z.files| && Gone(z) && Begun(z.files, z.started, z.start, z.persisted)
    ensures Safe(z) && |z.disk| == z.next
  {
    hide Begun, Faithful;
  }

  lemma TailSafe(z: Sys)
    requires Lawful(z) && z.s.phase in {Tx.ReadyForFile, Tx.WaitFinish, Tx.Finished}
    requires Begun(z.files, z.started, z.start, z.persisted)
    ensures Safe(z) && (!z.hasty ==> Reported(z))
  {
    hide Common, Sendable, Begun, Stale, Closed, Trailing, Gone, Safe, Rx.ZrinitHeader;
    hide Hello, Offering, Transferring, Closing;
    if z.s.phase == Tx.ReadyForFile {
      TrailingSafe(z, z.next, []);
    } else if z.s.phase == Tx.WaitFinish && z.down != [] {
      TrailingSafe(z, z.next, [ZFIN_MSG]);
    } else if |z.down| > 1 {
      TrailingSafe(z, z.next, [ZFIN_MSG, Tx.Over]);
    } else {
      GoneSafe(z);
    }
    SafeStart(z);
  }

  /** End-to-end safety: whatever is corrupted on the way, whenever a timer fires,
      and however the steps of the two sides interleave, every reachable state is safe. */
  lemma EndToEndSafety(files: seq<File>, c: Setup, acts: seq<Act>)
    requires Startable(files, c) && Possible(Launch(files, c), acts)
    ensures
      var y := Run(Launch(files, c), acts);
      y.files == files && y.r.manual == c.manual && Safe(y)
  {
    hide Safe, Possible, Inv, Launch, Run, Reported;
    StartInv(files, c);
    StartShape(files, c);
    RunInv(Launch(files, c), acts);
    InvSafe(Run(Launch(files, c), acts));
  }

  // ---------------------------------------------------------------------
  // What the sender reports
  // ---------------------------------------------------------------------

  /** The receiver's timer never fires while it waits for data of a file of which
      nothing is left. A caller can see that before it calls. */
  predicate Patient(y: Sys, acts: seq<Act>)
    requires Possible(y, acts)
    decreases |acts|
  {
    acts != [] ==> !(acts[0].RxTick? && Hasty(y.r)) && Patient(Next(y, acts[0]), acts[1..])
  }

  lemma {:induction false} HastyMark(y: Sys, acts: seq<Act>)
    requires Possible(y, acts)
    ensures Run(y, acts).hasty <==> y.hasty || !Patient(y, acts)
    decreases |acts|
  {
    hide Enabled, Hasty, Next;
    if acts != [] {
      MarkStep(y, acts[0]);
      HastyMark(Next(y, acts[0]), acts[1..]);
    }
  }

  lemma MarkStep(y: Sys, a: Act)
    requires Enabled(y, a)
    ensures Next(y, a).hasty <==> y.hasty || (a.RxTick? && Hasty(y.r))
  {
    hide Tx.Feed, Rx.Feed, Tx.SubmitFile, Rx.FileWritten, Tx.StartFile, Tx.Finish, Item, HeaderCore, SubWire.Bytes, Hasty;
    hide Rx.Timeout, Tx.Timeout, Rx.AcceptFileAt, Rx.SkipFile;
  }

  /** On a run without such a tick, a file that the sender reports is closed at the
      receiver, and a session it ends is complete. */
  lemma SenderReports(files: seq<File>, c: Setup, acts: seq<Act>)
    requires Startable(files, c) && Possible(Launch(files, c), acts) && Patient(Launch(files, c), acts)
    ensures Reported(Run(Launch(files, c), acts))
  {
    hide Safe, Possible, Inv, Launch, Run, Reported, Patient;
    StartInv(files, c);
    StartShape(files, c);
    RunInv(Launch(files, c), acts);
    HastyMark(Launch(files, c), acts);
    InvSafe(Run(Launch(files, c), acts));
  }
}
