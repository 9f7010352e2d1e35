/** The joined system never gets stuck, and with finitely many corruptions and timer
    ticks it ends, with every file delivered. */
module ProtocolLiveness {
  import opened Primitives
  import opened HeaderCodec
  import opened Subpackets
  import opened FileMetadata
  import opened Protocol
  import opened ProtocolDeliveries
  import opened ProtocolDown
  import opened ProtocolTransfer
  import opened ProtocolUp
  import opened ProtocolSafety
  import opened ProtocolRuns
  import Tx = SenderSpec
  import Rx = ReceiverSpec
  import TxInvariant = SenderInvariant
  import RxInvariant = ReceiverInvariant

  // ---------------------------------------------------------------------
  // No step fails
  // ---------------------------------------------------------------------

  /** The call behind a step answers without an error. */
  predicate Succeeds(y: Sys, a: Act)
    requires Enabled(y, a)
  {
    match a
    case TxRead(n) => Tx.SubmitFile(y.s, Stretch(y.Current(), y.s.request.value.offset, n)).Done?
    case TxNext => DriverSucceeds(y)
    case TxRecv => Tx.Feed(y.s, HeaderCore(y.up[0])).Fed?
    case TxTick => Tx.Timeout(y.s).Done?
    case RxWrite(n) => Rx.FileWritten(y.r, n).Done?
    case RxRecv => Rx.Feed(y.r, Item(y.down[0])).Fed?
    case RxTick => Rx.Timeout(y.r).Done?
    case RxAccept(offset) => Rx.AcceptFileAt(y.r, offset).Done?
    case RxSkip => Rx.SkipFile(y.r).Done?
    case Corrupt(sub) => Rx.Feed(y.r, sub.Bytes()).Fed?
    case _ => true
  }

  /** The sender's caller can start the next file, or finish. */
  predicate DriverSucceeds(y: Sys)
  {
    if y.next < |y.files| then
      |y.files[y.next].content| < 0x1_0000_0000
      && Tx.StartFile(y.s, y.files[y.next].name, Some(|y.files[y.next].content| as u32)).Done?
    else Tx.Finish(y.s).Done?
  }

  /** Nothing is refused for want of room, out of turn, or as malformed. */
  lemma StepSucceeds(y: Sys, a: Act)
    requires Inv(y) && Enabled(y, a)
    ensures Succeeds(y, a)
  {
    hide Inv, Tx.Feed, Rx.Feed, Item, HeaderCore, Rx.FileWritten, Tx.SubmitFile, SubWire.Bytes, DriverSucceeds;
    match a {
      case TxRead(n) => ReadSucceeds(y, n);
      case TxEvent =>
      case TxNext => NextSucceeds(y);
      case TxRecv => UpSucceeds(y);
      case TxTick =>
      case TxWindow(n) =>
      case RxWrite(n) => WriteSucceeds(y, n);
      case RxRecv => DownSucceeds(y);
      case RxTick =>
      case RxAccept(offset) =>
      case RxSkip =>
      case Corrupt(sub) => DamageSucceeds(y, sub);
      case TxFlush =>
      case RxFlush =>
      case RxEvent =>
    }
  }

  lemma NextSucceeds(y: Sys)
    requires Inv(y) && y.s.phase == Tx.ReadyForFile
    ensures DriverSucceeds(y)
  {
    hide Tx.Inv, Rx.Inv, Lawful, Tx.StartFile, Tx.Finish, Flat;
    FlatPhases(y);
    ReadyParts(Flat(y));
    TxInvariant.FinishInv(y.s);
    if y.next < |y.files| {
      var f := y.files[y.next];
      assert Sendable(f);
      TxInvariant.StartFileInv(y.s, f.name, Some(|f.content| as u32));
    }
  }

  /** What flattening leaves alone. */
  lemma FlatPhases(y: Sys)
    ensures
      var z := Flat(y);
      && z.s.phase == y.s.phase && z.s.event == y.s.event && z.files == y.files && z.next == y.next
      && z.r.phase == y.r.phase && z.r.events == y.r.events && z.s.request == y.s.request && z.s.fileSize == y.s.fileSize
      && z.reach == y.reach && z.down == y.down + y.s.out
  {
  }

  lemma UpSucceeds(y: Sys)
    requires Inv(y) && Enabled(y, TxRecv)
    ensures Succeeds(y, TxRecv)
  {
    hide Tx.Inv, Rx.Inv, Lawful, Tx.Feed, HeaderCore, Flat;
    TxHears(y);
    UpTells(Flat(y));
  }

  lemma DownSucceeds(y: Sys)
    requires Inv(y) && Enabled(y, RxRecv)
    ensures Succeeds(y, RxRecv)
  {
    hide Tx.Inv, Rx.Inv, Lawful, Rx.Feed, Item, Flat;
    RxReads(y);
    DownLands(Flat(y));
  }

  lemma ReadSucceeds(y: Sys, n: nat)
    requires Inv(y) && Enabled(y, TxRead(n))
    ensures Succeeds(y, TxRead(n))
  {
    hide Tx.Inv, Rx.Inv, Lawful, Tx.SubmitFile, Stretch, Flat;
    TxQuiet(y.s);
    FlatSides(y);
    FlatPhases(y);
    FetchBusy(Flat(y));
    ReadEmits(y.s, y.Current(), n);
    TxInvariant.SubmitFileInv(y.s, Stretch(y.Current(), y.s.request.value.offset, n));
  }

  lemma WriteSucceeds(y: Sys, n: nat)
    requires Inv(y) && Enabled(y, RxWrite(n))
    ensures Succeeds(y, RxWrite(n))
  {
    hide Tx.Inv, Rx.Inv, Lawful, Rx.FileWritten, Flat;
    FlatSides(y);
    SavingWhen(Flat(y));
    RxInvariant.FileWrittenInv(y.r, n);
  }

  lemma DamageSucceeds(y: Sys, sub: SubWire)
    requires Inv(y) && Enabled(y, Corrupt(sub))
    ensures Succeeds(y, Corrupt(sub))
  {
    hide Tx.Inv, Rx.Inv, Lawful, Rx.Feed, SubWire.Bytes, Flat;
    DamageLands(y, sub);
  }

  // ---------------------------------------------------------------------
  // Every step leaves less to do
  // ---------------------------------------------------------------------

  function Weights(ms: seq<Tx.Msg>): nat
  {
    if ms == [] then 0 else Weight(ms[0]) + Weights(ms[1..])
  }

  lemma {:induction false} WeightsConcat(a: seq<Tx.Msg>, b: seq<Tx.Msg>)
    ensures Weights(a + b) == Weights(a) + Weights(b)
    decreases |a|
  {
    hide Weight;
    if a == [] {
      assert a + b == b;
    } else {
      assert (a + b)[1..] == a[1..] + b;
      WeightsConcat(a[1..], b);
    }
  }

  /** The work left in the stage: a byte to read costs more than the frame it goes
      out in, a frame more than what the receiver does with it, and so on. */
  function Work(y: Sys): nat
  {
    11 * Behind(y) + Weights(y.s.out) + |y.s.out| + Weights(y.down) + |y.up| + Load(y.r)
    + if y.s.event.Some? then 1 else 0
  }

  function Owed(y: Sys): nat
  {
    if y.Rewinding() then 1 else 0
  }

  /** What no poll asks for and no frame brings: a subpacket is corrupted, a timer
      fires, a window is set. */
  predicate Mishap(a: Act)
  {
    a.Corrupt? || a.TxTick? || a.RxTick? || a.TxWindow?
  }

  /** The joined system, and how many mishaps are still to come. */
  datatype Lease = Lease(sys: Sys, budget: nat)

  predicate Allowed(l: Lease, a: Act)
  {
    Enabled(l.sys, a) && (Mishap(a) ==> l.budget > 0)
  }

  function After(l: Lease, a: Act): Lease
    requires Allowed(l, a)
  {
    Lease(Next(l.sys, a), if Mishap(a) then l.budget - 1 else l.budget)
  }

  /** Stages left first, then mishaps, then a rewind to come, then work. */
  predicate Less(a: Lease, b: Lease)
  {
    || Stage(a.sys) < Stage(b.sys)
    || (Stage(a.sys) == Stage(b.sys) && (a.budget < b.budget || (a.budget == b.budget && Closer(a.sys, b.sys))))
  }

  /** A rewind less to come, or less work. */
  predicate Closer(a: Sys, b: Sys)
  {
    Owed(a) < Owed(b) || (Owed(a) == Owed(b) && Work(a) < Work(b))
  }

  /** What a step that is no mishap achieves. */
  predicate Onwards(a: Sys, b: Sys)
  {
    Stage(a) < Stage(b) || (Stage(a) == Stage(b) && Closer(a, b))
  }

  lemma TxFlushLess(y: Sys)
    requires Inv(y) && Enabled(y, TxFlush)
    ensures Onwards(Next(y, TxFlush), y)
  {
    hide Inv, Tx.WireOf, Weight, Load;
    WeightsConcat(y.down, y.s.out);
  }

  lemma RxFlushLess(y: Sys)
    requires Inv(y) && Enabled(y, RxFlush)
    ensures Onwards(Next(y, RxFlush), y)
  {
    hide Inv, EncHeader, Weights;
  }

  lemma RxRecvLess(y: Sys)
    requires Inv(y) && Enabled(y, RxRecv)
    ensures Onwards(Next(y, RxRecv), y)
  {
    hide Tx.Inv, Rx.Inv, Lawful, Rx.Feed, Item, Onwards, Lighter, Flat;
    RxReads(y);
    TxQuiet(y.s);
    DownLands(Flat(y));
    LandedLess(y, Rx.Feed(y.r, Item(y.down[0])).rx, if y.stray > 0 then y.stray - 1 else 0);
  }

  lemma LandedLess(y: Sys, r': Rx.RxState, stray: nat)
    requires y.s.out == [] ==> y.s.sent == 0
    requires y.down != [] && y.r.out.None? && y.r.sent == 0 && Flat(y).down != [] && Lighter(Flat(y), r')
    ensures Onwards(y.(r := r', down := y.down[1..], stray := stray), y)
  {
    hide Weight, Load, Stage, Behind;
    var t := y.(r := r', down := y.down[1..], stray := stray);
    FlatTx(y);
    FlatRx(y);
    Unmoved(y, t);
    WorkOf(y);
  }

  /** The stage and the reading position are the sender's business. */
  lemma Unmoved(y: Sys, t: Sys)
    requires t.s == y.s && t.next == y.next && t.files == y.files && t.reach == y.reach
    ensures Stage(t) == Stage(y) && Behind(t) == Behind(y)
  {
  }

  lemma WorkOf(y: Sys)
    ensures y.down != [] ==> Weights(y.down) == Weight(y.down[0]) + Weights(y.down[1..])
  {
  }

  lemma TxRecvLess(y: Sys)
    requires Inv(y) && Enabled(y, TxRecv)
    ensures Onwards(Next(y, TxRecv), y)
  {
    hide Tx.Inv, Rx.Inv, Lawful, Tx.Feed, HeaderCore, Tells, Onwards, Flat;
    TxQuiet(y.s);
    TxHears(y);
    UpTells(Flat(y));
    ToldLess(y, Tx.Feed(y.s, HeaderCore(y.up[0])));
  }

  lemma ToldLess(y: Sys, f: Tx.Fed)
    requires y.up != [] && y.s.out == [] && Flat(y).up != [] && Tells(Flat(y), f)
    ensures
      var reach := if f.tx.request.Some? then f.tx.request.value.offset else y.reach;
      Onwards(y.(s := f.tx, up := y.up[1..], reach := reach), y)
  {
    hide Lawful, Weight, Load;
    Joined(y.up, OutOf(y.r), []);
    Joined(y.down, [], []);
  }

  lemma TxReadLess(y: Sys, n: nat)
    requires Inv(y) && Enabled(y, TxRead(n))
    ensures Onwards(Next(y, TxRead(n)), y)
  {
    hide Tx.Inv, Rx.Inv, Lawful, Tx.SubmitFile, Stretch, Flat, Stage, Owed, Work, Weights, Load, Tx.DataFrame;
    TxQuiet(y.s);
    SendingWhen(y);
    ReadEmits(y.s, y.Current(), n);
    var data := Stretch(y.Current(), y.s.request.value.offset, n);
    FrameWeight(y.s.request.value.offset, data, ZCRCW, y.s.needsHeader);
    FrameWeight(y.s.request.value.offset, data, ZCRCG, y.s.needsHeader);
    ReadWork(y, Next(y, TxRead(n)), n);
  }

  /** Reading costs less than there is to read. */
  lemma ReadWork(y: Sys, t: Sys, n: nat)
    requires 1 <= y.next <= |y.files| && y.s.phase == Tx.NeedFileData && y.s.out == [] && n >= 1
    requires y.reach + n <= |y.Current().content|
    requires t == y.(s := t.s, reach := y.reach + n, stray := t.stray) && t.s.event == y.s.event
    requires t.s.phase == Tx.NeedFileData || t.s.phase == Tx.WaitFileAck
    requires Weights(t.s.out) + |t.s.out| <= n + 9
    ensures Onwards(t, y)
  {
    hide Weights, Load;
    NoWeight();
  }

  lemma NoWeight()
    ensures Weights([]) == 0
  {
  }

  lemma SendingWhen(y: Sys)
    requires Inv(y) && y.s.request.Some?
    ensures y.s.phase == Tx.NeedFileData && y.reach == y.s.request.value.offset <= |y.Current().content|
    ensures y.s.fileSize == |y.Current().content|
  {
    hide Tx.Inv, Rx.Inv, Lawful, Flat;
    TxQuiet(y.s);
    FlatPhases(y);
    FlowingIsLawful(Flat(y));
    SendingFlat(Flat(y));
  }

  lemma SendingFlat(z: Sys)
    requires Flowing(z) && z.s.phase == Tx.NeedFileData
    ensures z.s.request.Some? && z.reach == z.s.request.value.offset <= |z.Current().content|
    ensures z.s.fileSize == |z.Current().content|
  {
    hide Sendable, Filed, Begun, Persisting, Receiving, Awaiting;
  }

  lemma FrameWeight(offset: u32, data: seq<byte>, kind: SubpacketType, header: bool)
    ensures
      var ms := Tx.DataFrame(offset, data, kind, header);
      |ms| <= 2 && Weights(ms) + |ms| <= |data| + 9
  {
    hide Sealed, Header.WithCount;
    var m := Tx.Data(Sealed(ZBIN32, kind, data));
    FrameParts(offset, data, kind, header);
    SealedShape(kind, data);
    assert Weights([m]) == Weight(m) by {
      assert [m][1..] == [];
    }
    if header {
      assert [ZdataMsg(offset), m][1..] == [m];
    }
  }

  lemma RxWriteLess(y: Sys, n: nat)
    requires Inv(y) && Enabled(y, RxWrite(n))
    ensures Onwards(Next(y, RxWrite(n)), y)
  {
    hide Tx.Inv, Rx.Inv, Lawful, Rx.FileWritten, Flat, Saves, Saved;
    RxQuiet(y.r);
    FlatSides(y);
    FlatPhases(y);
    SavedKept(Flat(y), n);
    WriteLess(y, n);
  }

  lemma WriteLess(y: Sys, n: nat)
    requires Enabled(y, RxWrite(n)) && Flat(y).r == y.r && Flat(y).up == y.up && Saves(Flat(y), n)
    ensures Onwards(Next(y, RxWrite(n)), y)
  {
    hide Lawful, Rx.FileWritten, Load, Weights, Flat, Stage, Behind;
    Unmoved(y, Next(y, RxWrite(n)));
  }

  lemma RxEventLess(y: Sys)
    requires Enabled(y, RxEvent)
    ensures Onwards(Next(y, RxEvent), y)
  {
    hide Weights, Stage, Behind;
    var t := Next(y, RxEvent);
    Unmoved(y, t);
    assert t.r == y.r.(events := y.r.events[1..]);
  }

  lemma TxEventLess(y: Sys)
    requires Enabled(y, TxEvent)
    ensures Onwards(Next(y, TxEvent), y)
  {
    hide Weights, Load;
  }

  lemma TxNextLess(y: Sys)
    requires Inv(y) && Enabled(y, TxNext)
    ensures Onwards(Next(y, TxNext), y)
  {
    hide Tx.Inv, Rx.Inv, Lawful, Flat, Onward, Next, Stage, Closer;
    FlatSides(y);
    TxQuiet(y.s);
    TxNextInv(y);
    DrivenKept(Flat(y));
    StageFlat(y);
    StageFlat(Next(y, TxNext));
  }

  lemma StageFlat(y: Sys)
    ensures Stage(Flat(y)) == Stage(y)
  {
  }

  lemma RxAcceptLess(y: Sys, offset: u32)
    requires Enabled(y, RxAccept(offset))
    ensures Onwards(Next(y, RxAccept(offset)), y)
  {
    hide Weights, Header.WithCount;
  }

  lemma RxSkipLess(y: Sys)
    requires Enabled(y, RxSkip)
    ensures Onwards(Next(y, RxSkip), y)
  {
    hide Weights;
  }

  /** A mishap does not change the stage. */
  lemma MishapStage(y: Sys, a: Act)
    requires Enabled(y, a) && Mishap(a)
    ensures Stage(Next(y, a)) == Stage(y)
  {
    hide Rx.Feed, SubWire.Bytes;
  }

  /** Every step leaves less to do. */
  lemma StepLess(l: Lease, a: Act)
    requires Inv(l.sys) && Allowed(l, a)
    ensures Less(After(l, a), l)
  {
    hide Inv, Closer, Next, Enabled, Stage;
    var y := l.sys;
    match a {
      case TxFlush => TxFlushLess(y);
      case TxRead(n) => TxReadLess(y, n);
      case TxEvent => TxEventLess(y);
      case TxNext => TxNextLess(y);
      case TxRecv => TxRecvLess(y);
      case TxTick => MishapStage(y, a);
      case TxWindow(n) => MishapStage(y, a);
      case RxFlush => RxFlushLess(y);
      case RxWrite(n) => RxWriteLess(y, n);
      case RxEvent => RxEventLess(y);
      case RxRecv => RxRecvLess(y);
      case RxTick => MishapStage(y, a);
      case RxAccept(offset) => RxAcceptLess(y, offset);
      case RxSkip => RxSkipLess(y);
      case Corrupt(sub) => MishapStage(y, a);
    }
  }

  // ---------------------------------------------------------------------
  // Some step is always there to take
  // ---------------------------------------------------------------------

  /** Both sides are done and nothing is under way to the receiver. What is still
      under way to the sender it does not look at any more. */
  predicate Over(y: Sys)
  {
    && y.s.phase == Tx.Finished && y.s.event.None? && y.s.out == [] && y.down == []
    && y.r.phase == Rx.SessionEnd && y.r.events == [] && y.r.out.None?
  }

  /** A step that is there to take: do what a poll asks for, else deliver a frame. */
  function Pick(y: Sys): Act
  {
    if y.s.event.Some? then TxEvent
    else if y.s.phase == Tx.ReadyForFile then TxNext
    else if y.s.out != [] then TxFlush
    else if y.s.request.Some? then TxRead(1)
    else if y.r.events != [] then RxEvent
    else if y.r.out.Some? then RxFlush
    else if y.r.FileBytes() != [] then RxWrite(1)
    else if y.r.phase == Rx.FileAcceptPending then RxAccept(0)
    else if y.down != [] then RxRecv
    else TxRecv
  }

  /** No caller is asked for anything. */
  predicate Quiet(y: Sys)
  {
    && y.s.event.None? && y.s.phase != Tx.ReadyForFile && y.s.out == [] && y.s.request.None?
    && y.r.events == [] && y.r.out.None? && y.r.FileBytes() == [] && y.r.phase != Rx.FileAcceptPending
  }

  /** Deadlock freedom: short of the end, some step can be taken, and it needs no
      mishap. */
  lemma Unstuck(y: Sys)
    requires Inv(y) && !Over(y)
    ensures Enabled(y, Pick(y)) && !Mishap(Pick(y))
  {
    hide Lawful, Rx.Inv, Tx.Inv, Flat;
    RequestSome(y.s);
    if Quiet(y) {
      QuietFlat(y);
      if y.down != [] {
        QuietReads(y);
      } else {
        QuietOver(y);
      }
    }
  }

  lemma RequestSome(s: Tx.TxState)
    requires Tx.Inv(s)
    ensures s.request.Some? ==> s.request.value.len >= 1
    ensures s.out == [] ==> s.sent == 0
  {
    hide Tx.WireOf, Tx.DivCeil;
  }

  lemma QuietFlat(y: Sys)
    requires Inv(y) && Quiet(y)
    ensures Flat(y) == y
  {
    hide Lawful, Rx.Inv, Tx.Inv;
    FlatSides(y);
  }

  /** A quiet receiver takes the next byte. */
  lemma QuietReads(y: Sys)
    requires Inv(y) && Quiet(y)
    ensures y.r.CanRead()
  {
    hide Tx.Inv, Lawful, Flat, Rx.Checked, EncHeader;
    QuietRoom(y.r);
    FlatPhases(y);
    RxQuiet(y.r);
    FlatSides(y);
    FullWhen(Flat(y));
  }

  lemma QuietRoom(r: Rx.RxState)
    requires Rx.Inv(r) && r.events == [] && r.out.None? && r.FileBytes() == []
    ensures !r.Blocked()
    ensures r.sub.Writing? ==> r.written == |r.buf| && r.count + |r.buf| > Rx.MAX_COUNT
  {
    hide Rx.Checked, EncHeader;
  }

  /** Data that is all persisted is not on offer. */
  lemma FullWhen(z: Sys)
    requires Lawful(z) && Rx.Inv(z.r)
    ensures z.r.InSubpacket() && z.r.sub.Writing? ==> z.r.written < |z.r.buf|
  {
    hide Rx.Checked, Chain, Header.WithCount, Sealed, Metadata, Filed, Stale, Holding, Closed, Begun, Rx.ZrinitHeader;
    hide Whole, Asking, Tx.ZfileFrame, Announced, Sendable;
  }

  /** With nothing to do and nothing under way, the session is over. */
  lemma QuietOver(z: Sys)
    requires Lawful(z) && Quiet(z) && z.down == []
    ensures z.s.phase == Tx.Finished ==> Over(z)
    ensures z.s.phase != Tx.Finished ==> z.up != []
  {
    hide Lawful, Common;
    if z.s.phase == Tx.WaitFilePos {
      QuietOffer(z);
    } else if Busy(z) {
      FlowingIsLawful(z);
      TransferBusy(z);
    } else {
      QuietElsewhere(z);
    }
  }

  lemma QuietOffer(z: Sys)
    requires Lawful(z) && Quiet(z) && z.down == [] && z.s.phase == Tx.WaitFilePos
    ensures z.up != []
  {
    hide Common, Sendable, Filed, Stale, Announced, Trailing, Rx.ZrinitHeader, Header.WithCount, Metadata, Sealed;
    hide Hello, Transferring, Closing, Leaving, Left;
  }

  lemma QuietElsewhere(z: Sys)
    requires Lawful(z) && Quiet(z) && z.down == [] && !Busy(z) && z.s.phase != Tx.WaitFilePos
    ensures z.s.phase == Tx.Finished ==> Over(z)
    ensures z.s.phase != Tx.Finished ==> z.up != []
  {
    hide Sendable, Begun, Filed, Stale, Rx.ZrinitHeader, Header.WithCount, Offering, Transferring, Whole;
  }

  /** During a transfer there is always something to do or under way. */
  lemma TransferBusy(z: Sys)
    requires Flowing(z) && Quiet(z)
    ensures z.down != [] || z.up != []
  {
    hide Common, Filed, Begun, Persisting, Sendable, Stale, Header.WithCount, Chain, Rx.ZrinitHeader;
    if z.down == [] {
      OpenChain(z.Current().content, z.r.count, z.reach, z.s.phase == Tx.WaitFileAck);
      OpenChain(z.Current().content, z.r.count + |z.r.buf|, z.reach, z.s.phase == Tx.WaitFileAck);
    }
  }

  lemma OpenChain(content: seq<byte>, from: nat, to: nat, closed: bool)
    ensures Chain([], content, from, to, closed) ==> !closed
  {
  }

  // ---------------------------------------------------------------------
  // Main results
  // ---------------------------------------------------------------------

  /** Every file is closed at the receiver as it should be, in order: whole, unless
      its caller decided otherwise. */
  predicate Delivered(files: seq<File>, disk: seq<Entry>, manual: bool)
  {
    && |disk| == |files|
    && (forall i :: 0 <= i < |files| ==> Faithful(files[i], disk[i], manual))
    && (!manual ==> forall i :: 0 <= i < |files| ==> disk[i] == Kept(0, files[i].content))
  }

  /** The end means delivery. */
  lemma OverMeansAll(y: Sys)
    requires Inv(y) && Over(y)
    ensures Delivered(y.files, y.disk, y.r.manual)
  {
    hide Inv;
    InvSafe(y);
    if !y.r.manual {
      forall i | 0 <= i < |y.files|
        ensures y.disk[i] == Kept(0, y.files[i].content)
      {
        assert Faithful(y.files[i], y.disk[i], y.r.manual);
        assert Rest(y.files[i], 0) == y.files[i].content;
      }
    }
  }

  /** A schedule that, short of the end, always names a step that can be taken. */
  ghost predicate Schedule(pick: Lease -> Act)
  {
    forall l: Lease :: Inv(l.sys) && !Over(l.sys) ==> Allowed(l, pick(l))
  }

  /** Where a schedule leads. That this is well defined is termination. */
  ghost function Finale(l: Lease, pick: Lease -> Act): (t: Sys)
    requires Inv(l.sys) && Schedule(pick)
    ensures Inv(t) && Over(t) && t.files == l.sys.files && t.r.manual == l.sys.r.manual
    decreases Stage(l.sys), l.budget, Owed(l.sys), Work(l.sys)
  {
    if Over(l.sys) then l.sys
    else
      StepInv(l.sys, pick(l));
      StepLess(l, pick(l));
      StepKeeps(l.sys, pick(l));
      Finale(After(l, pick(l)), pick)
  }

  /** Every schedule, however it interleaves the two sides, wherever it corrupts data
      and whenever it lets a timer fire, ends with every file delivered. */
  lemma Delivery(files: seq<File>, c: Setup, budget: nat, pick: Lease -> Act)
    requires Startable(files, c) && Schedule(pick)
    ensures Inv(Launch(files, c))
    ensures
      var t := Finale(Lease(Launch(files, c), budget), pick);
      Over(t) && Delivered(files, t.disk, c.manual)
  {
    hide Inv, Finale, Launch, Delivered;
    StartInv(files, c);
    StartShape(files, c);
    OverMeansAll(Finale(Lease(Launch(files, c), budget), pick));
  }

  /** And so does every run that goes on for as long as a caller has anything to do
      or a frame can be delivered. */
  lemma DeliveryOfRun(files: seq<File>, c: Setup, acts: seq<Act>)
    requires Startable(files, c) && Possible(Launch(files, c), acts)
    requires forall a :: Enabled(Run(Launch(files, c), acts), a) ==> Mishap(a)
    ensures
      var t := Run(Launch(files, c), acts);
      Over(t) && Delivered(files, t.disk, c.manual)
  {
    hide Inv, Launch, Delivered, Possible, Run, Enabled, Over, Pick;
    StartInv(files, c);
    StartShape(files, c);
    RunInv(Launch(files, c), acts);
    var t := Run(Launch(files, c), acts);
    if !Over(t) {
      Unstuck(t);
    }
    OverMeansAll(t);
  }

  /** There is such a schedule. */
  lemma SomeSchedule()
    ensures Schedule((l: Lease) => Pick(l.sys))
  {
    hide Inv, Over, Enabled, Pick;
    var pick := (l: Lease) => Pick(l.sys);
    forall l: Lease | Inv(l.sys) && !Over(l.sys)
      ensures Allowed(l, pick(l))
    {
      Unstuck(l.sys);
    }
  }

  /** No run goes on for ever, scheduled or not, unless mishaps do: an endless list of
      states has a place where the next one does not follow by the step named for it. */
  lemma {:induction false} NoEndlessRun(f: nat -> Lease, a: nat -> Act, from: nat)
    requires Inv(f(from).sys)
    ensures exists i :: i >= from && !Follows(f, a, i)
    decreases Stage(f(from).sys), f(from).budget, Owed(f(from).sys), Work(f(from).sys)
  {
    hide Inv, Next, Enabled, Work;
    if Follows(f, a, from) {
      StepInv(f(from).sys, a(from));
      StepLess(f(from), a(from));
      NoEndlessRun(f, a, from + 1);
    }
  }

  predicate Follows(f: nat -> Lease, a: nat -> Act, i: nat)
  {
    Allowed(f(i), a(i)) && f(i + 1) == After(f(i), a(i))
  }
}
