/** A sender and a receiver joined by two queues of frames, each driven by a caller
    that does what the polls ask for. Frames are delivered through the byte-level
    semantics of either side; data subpackets may be corrupted on the way. */
module Protocol {
  import opened Primitives
  import opened HeaderCodec
  import opened HeaderReading
  import opened Subpackets
  import opened FileMetadata
  import Tx = SenderSpec
  import Rx = ReceiverSpec

  datatype File = File(name: seq<byte>, content: seq<byte>)

  /** A file the protocol can carry: its name fits and its size has 32 bits. */
  predicate Sendable(f: File)
  {
    f.name != [] && NUL !in f.name && |f.name| <= NAME_CAP && |f.content| < 0x1_0000_0000
  }

  /** What the receiver's caller has at the end of a file: nothing if it declined the
      file, else the bytes it persisted from the offset it accepted. */
  datatype Entry = Skipped | Kept(start: nat, bytes: seq<byte>)

  /** `down` and `up` are the frames under way to the receiver and to the sender.
      The sender's caller has started `next` of the `files`. The receiver's caller
      has started `started` of them, accepted the last at `start`, persisted part of
      it, and closed those on `disk`. Three marks help to state what holds: how far
      into the current file the sender has read, how many of the frames going down
      are left over from a frame the receiver gave up on, and whether the receiver's
      timer ever fired while it waited for a file of which nothing was left. */
  datatype Sys = Sys(
    s: Tx.TxState,
    r: Rx.RxState,
    down: seq<Tx.Msg>,
    up: seq<Header>,
    files: seq<File>,
    next: nat,
    disk: seq<Entry>,
    started: nat,
    start: nat,
    persisted: seq<byte>,
    hasty: bool,
    reach: nat,
    stray: nat)
  {
    /** The file under way. */
    function Current(): File
      requires 1 <= next <= |files|
    {
      files[next - 1]
    }

    /** The receiver has asked for a rewind that the sender has not seen yet. */
    predicate Rewinding()
    {
      r.phase == Rx.FileWaitingSubpacket && r.reader.resyncing && (up != [] || r.out.Some?)
    }
  }

  /** What there is of a file from an offset on. */
  function Rest(f: File, start: nat): seq<byte>
  {
    if start <= |f.content| then f.content[start..] else []
  }

  /** What is delivered of a frame; the line ending of a hex header is skipped. */
  function Item(m: Tx.Msg): seq<byte>
  {
    match m
    case Head(h) => HeaderCore(h)
    case Data(s) => s.Bytes()
    case Over => Tx.OO
  }

  /** `RxRecv` and `TxRecv` deliver a frame; `Corrupt` delivers this instead of the
      subpacket in front; the timers may fire, and the window be set, at any time.
      `TxNext` goes on to the next file or the end; the others are what a poll asks
      a caller to do. */
  datatype Act =
    | TxFlush | TxRead(n: nat) | TxEvent | TxNext | TxRecv | TxTick | TxWindow(n: nat)
    | RxFlush | RxWrite(n: nat) | RxEvent | RxRecv | RxTick
    | RxAccept(offset: u32) | RxSkip
    | Corrupt(sub: SubWire)

  /** A subpacket that arrives with a trailer that does not match. */
  predicate Damaged(sub: SubWire)
  {
    |sub.data| <= SUBPACKET_MAX_SIZE && |sub.sum| == CrcLen(ZBIN32) && !sub.Intact(ZBIN32)
  }

  predicate Enabled(y: Sys, a: Act)
  {
    match a
    case TxFlush => y.s.event.None? && y.s.out != []
    case TxRead(n) =>
      && 1 <= y.next <= |y.files| && y.s.event.None? && y.s.out == [] && y.s.request.Some?
      && 1 <= n <= y.s.request.value.len
    case TxEvent => y.s.event.Some?
    case TxNext => y.s.phase == Tx.ReadyForFile && y.s.event.None?
    case TxRecv => y.up != [] && !y.s.Blocked()
    case TxTick => true
    case TxWindow(_) => true
    case RxFlush => y.r.events == [] && y.r.out.Some?
    case RxWrite(n) => y.r.events == [] && y.r.out.None? && 1 <= n <= |y.r.FileBytes()|
    case RxEvent => y.r.events != []
    case RxRecv => y.down != [] && y.r.CanRead()
    case RxTick => true
    case RxAccept(_) => y.r.phase == Rx.FileAcceptPending && y.r.events == [] && y.r.out.None?
    case RxSkip => y.r.phase == Rx.FileAcceptPending && y.r.events == [] && y.r.out.None?
    case Corrupt(sub) =>
      && y.down != [] && y.down[0].Data? && y.r.CanRead() && Damaged(sub)
      && (y.r.InSubpacket() ==> y.r.phase == Rx.FileReadingSubpacket && y.r.retries < Rx.MAX_ZRPOS_RETRIES)
  }

  function Next(y: Sys, a: Act): Sys
    requires Enabled(y, a)
  {
    match a
    case TxFlush => y.(down := y.down + y.s.out, s := Tx.WireWritten(y.s, |y.s.WireBytes()|))
    case TxRead(n) => Read(y, n)
    case TxEvent => y.(s := Tx.PopEvent(y.s))
    case TxNext => Driven(y)
    case TxRecv =>
      var s := Tx.Feed(y.s, HeaderCore(y.up[0])).tx;
      y.(s := s, up := y.up[1..], reach := if s.request.Some? then s.request.value.offset else y.reach)
    case TxTick => y.(s := Tx.Timeout(y.s).tx)
    case TxWindow(n) => y.(s := Tx.SetStreamingWindow(y.s, n))
    case RxFlush => y.(up := y.up + [y.r.out.value], r := Rx.WireWritten(y.r, |y.r.WireBytes()|))
    case RxWrite(n) => y.(persisted := y.persisted + y.r.FileBytes()[..n], r := Rx.FileWritten(y.r, n).rx)
    case RxEvent => Noted(y.(r := Rx.PopEvent(y.r)), y.r.events[0])
    case RxRecv =>
      y.(r := Rx.Feed(y.r, Item(y.down[0])).rx, down := y.down[1..], stray := if y.stray > 0 then y.stray - 1 else 0)
    case RxTick => y.(r := Rx.Timeout(y.r).rx, hasty := y.hasty || Hasty(y.r))
    case RxAccept(offset) => y.(r := Rx.AcceptFileAt(y.r, offset).rx, start := offset)
    case RxSkip => y.(r := Rx.SkipFile(y.r).rx, disk := y.disk + [Skipped])
    case Corrupt(sub) =>
      y.(r := Rx.Feed(y.r, sub.Bytes()).rx, down := y.down[1..],
         stray := if y.stray > 0 then y.stray - 1 else |y.down| - 1 + |y.s.out|)
  }

  /** A timer that fires now repeats ZRINIT to a sender that may take it for the
      answer to its ZEOF: the receiver waits for data, and there is none left. */
  predicate Hasty(r: Rx.RxState)
  {
    r.phase == Rx.FileBegin && r.active && r.out.None? && r.fileSize <= r.count
  }

  /** The bytes of the current file that a read returns. */
  function Stretch(f: File, offset: nat, n: nat): seq<byte>
  {
    if offset + n <= |f.content| then f.content[offset..offset + n] else []
  }

  function Read(y: Sys, n: nat): Sys
    requires 1 <= y.next <= |y.files| && y.s.request.Some?
  {
    var offset := y.s.request.value.offset;
    var s := Tx.SubmitFile(y.s, Stretch(y.Current(), offset, n)).tx;
    y.(s := s, reach := offset + n, stray := if y.Rewinding() then y.stray + |s.out| else y.stray)
  }

  /** The sender's caller starts the next file, whenever it likes once it has seen that
      one is done, and finishes after the last. */
  function Driven(y: Sys): Sys
  {
    if y.next < |y.files| then
      var f := y.files[y.next];
      var size := if |f.content| < 0x1_0000_0000 then Some(|f.content| as u32) else None;
      y.(s := Tx.StartFile(y.s, f.name, size).tx, next := y.next + 1, reach := 0)
    else y.(s := Tx.Finish(y.s).tx)
  }

  /** The receiver's caller opens a file when it starts and closes it when it is done. */
  function Noted(y: Sys, e: Rx.Event): Sys
  {
    if e == Rx.FileStart then y.(persisted := [], started := y.started + 1)
    else if e == Rx.FileComplete then y.(disk := y.disk + [Kept(y.start, y.persisted)])
    else y
  }

  /** How both ends are set up: the receiver's flow control and whether its caller
      decides on each file, and the sender's window. */
  datatype Setup = Setup(bufferLen: nat, overlapped: bool, manual: bool, window: nat)

  /** Both ends new, the first file started. */
  function Launch(files: seq<File>, c: Setup): Sys
    requires files != [] && Sendable(files[0])
  {
    var s := Tx.StartFile(Tx.SetStreamingWindow(Tx.Initial(), c.window), files[0].name, Some(|files[0].content|)).tx;
    var r := Rx.Initial(c.bufferLen, c.overlapped).(manual := c.manual);
    Sys(s, r, [], [], files, 1, [], 0, 0, [], false, 0, 0)
  }

  // ---------------------------------------------------------------------
  // Frames under way
  // ---------------------------------------------------------------------

  const ZRQINIT_MSG: Tx.Msg := Tx.Head(ZRQINIT_HEADER)
  const ZFIN_MSG: Tx.Msg := Tx.Head(ZFIN_HEADER)

  function ZdataMsg(offset: u32): Tx.Msg
  {
    Tx.Head(ZDATA_HEADER.WithCount(offset))
  }

  function ZeofMsg(offset: u32): Tx.Msg
  {
    Tx.Head(ZEOF_HEADER.WithCount(offset))
  }

  function Zrinit(r: Rx.RxState): Header
  {
    Rx.ZrinitHeader(r.bufferLen, r.overlapped)
  }

  function Zrpos(offset: u32): Header
  {
    ZRPOS_HEADER.WithCount(offset)
  }

  function Zack(offset: u32): Header
  {
    ZACK_HEADER.WithCount(offset)
  }

  function ZfileMsgs(f: File): seq<Tx.Msg>
    requires Sendable(f)
  {
    Tx.ZfileFrame(f.name, |f.content|)
  }

  /** Nothing but requests for a receiver. */
  predicate Asking(ms: seq<Tx.Msg>)
  {
    forall i :: 0 <= i < |ms| ==> ms[i] == ZRQINIT_MSG
  }

  /** Nothing but ZRINITs, as many as timers and repeated requests have made. */
  predicate Stale(up: seq<Header>, zrinit: Header)
  {
    forall i :: 0 <= i < |up| ==> up[i] == zrinit
  }

  /** Only ZRINITs, and this answer once among them. */
  predicate Holding(up: seq<Header>, zrinit: Header, h: Header)
    decreases |up|
  {
    up != [] &&
    if up[0] == h then Stale(up[1..], zrinit) else up[0] == zrinit && Holding(up[1..], zrinit, h)
  }

  /** Only ZRINITs, and this answer behind them. */
  predicate Closed(up: seq<Header>, zrinit: Header, h: Header)
  {
    up != [] && up[|up| - 1] == h && Stale(up[..|up| - 1], zrinit)
  }

  predicate AllData(ms: seq<Tx.Msg>)
  {
    forall i :: 0 <= i < |ms| ==> ms[i].Data?
  }

  /** A subpacket that carries the file from an offset. */
  predicate Piece(m: Tx.Msg, content: seq<byte>, from: nat)
  {
    && m.Data? && 1 <= |m.sub.data| <= SUBPACKET_MAX_SIZE && from + |m.sub.data| <= |content|
    && m.sub.data == content[from..from + |m.sub.data|]
    && m.sub == Sealed(ZBIN32, m.sub.kind, m.sub.data)
  }

  /** Subpackets that carry the file from one offset to another, without a gap;
      the last one asks for an answer if the frame is closed, and no other does. */
  predicate Chain(ms: seq<Tx.Msg>, content: seq<byte>, from: nat, to: nat, closed: bool)
    decreases |ms|
  {
    if ms == [] then from == to && !closed
    else
      && Piece(ms[0], content, from)
      && (if ms[0].sub.kind == ZCRCW then ms[1..] == [] && closed && from + |ms[0].sub.data| == to
          else ms[0].sub.kind == ZCRCG && Chain(ms[1..], content, from + |ms[0].sub.data|, to, closed))
  }

  // ---------------------------------------------------------------------
  // What holds in every reachable state
  // ---------------------------------------------------------------------

  /** The state seen with everything queued already under way. */
  function Flat(y: Sys): Sys
  {
    y.(down := y.down + y.s.out, s := y.s.(out := [], sent := 0),
       up := y.up + OutOf(y.r), r := y.r.(out := None, sent := 0))
  }

  function OutOf(r: Rx.RxState): seq<Header>
  {
    if r.out.Some? then [r.out.value] else []
  }

  /** The entry is what was sent from the offset accepted, or the file was declined;
      a receiver that decides for itself takes all of every file. */
  predicate Faithful(f: File, e: Entry, manual: bool)
  {
    if e.Skipped? then manual else e.bytes == Rest(f, e.start) && (!manual ==> e.start == 0)
  }

  /** The first `k` files are closed, each as it should be, in order. */
  predicate Filed(files: seq<File>, disk: seq<Entry>, k: nat, manual: bool)
    requires k <= |files|
  {
    |disk| == k && forall i :: 0 <= i < k ==> Faithful(files[i], disk[i], manual)
  }

  /** What is persisted is the beginning of what was accepted of the open file. */
  predicate Begun(files: seq<File>, started: nat, start: nat, persisted: seq<byte>)
  {
    0 < started <= |files| ==> persisted <= Rest(files[started - 1], start)
  }

  /** Between frames: nothing staged, the reader at rest. */
  predicate AtRest(r: Rx.RxState)
  {
    r.sub.Resting? && r.reader == FRESH
  }

  /** The receiver is between files. */
  predicate Between(r: Rx.RxState)
  {
    AtRest(r) && r.phase == Rx.FileBegin && !r.active
  }

  /** The receiver waits for data of the current file. */
  predicate Waiting(r: Rx.RxState)
  {
    (r.phase == Rx.FileBegin && r.active) || r.phase == Rx.FileWaitingSubpacket
  }

  /** All of the open file is persisted. */
  predicate Whole(z: Sys, k: nat)
    requires k <= |z.files|
  {
    k > 0 && z.persisted == Rest(z.files[k - 1], z.start) && (!z.r.manual ==> z.start == 0)
  }

  /** The receiver is done with `k` files, or about to note that it is. */
  predicate Settled(z: Sys, k: nat)
    requires k <= |z.files|
  {
    && Between(z.r) && z.started == k
    && (if z.r.events == [] then Filed(z.files, z.disk, k, z.r.manual)
        else z.r.events == [Rx.FileComplete] && k > 0 && Filed(z.files, z.disk, k - 1, z.r.manual) && Whole(z, k))
  }

  /** The receiver has all of file `k` and still waits for the ZEOF that says so. */
  predicate Lagging(z: Sys, k: nat)
    requires k <= |z.files|
  {
    && AtRest(z.r) && z.r.phase == Rx.FileBegin && z.r.active && z.r.events == [] && z.started == k
    && k > 0 && Filed(z.files, z.disk, k - 1, z.r.manual) && Whole(z, k) && z.hasty
  }

  /** The sender believes `k` files done and has gone on with `tail`. */
  predicate Trailing(z: Sys, k: nat, tail: seq<Tx.Msg>)
    requires k <= |z.files|
  {
    || (z.down == tail && Settled(z, k) && (z.r.events != [] ==> z.hasty))
    || (z.down == [ZeofMsg(z.r.count)] + tail && Lagging(z, k))
  }

  /** The handshake. */
  predicate Hello(z: Sys)
  {
    && z.next == 1 && z.disk == [] && z.started == 0 && z.s.hasFile
    && z.r.phase == Rx.SessionBegin && AtRest(z.r) && z.r.events == []
    && Asking(z.down) && Stale(z.up, Zrinit(z.r)) && (z.down == [] ==> z.up != [])
  }

  /** The receiver has asked for the file, from where its caller wants it. */
  predicate Requested(z: Sys)
    requires 1 <= z.next <= |z.files| && Sendable(z.Current())
  {
    && AtRest(z.r) && z.down == [] && z.r.fileSize == |z.Current().content| && z.r.count == z.start
    && Filed(z.files, z.disk, z.next - 1, z.r.manual)
    && Holding(z.up, Zrinit(z.r), Zrpos(z.r.count))
    && (z.up[|z.up| - 1] == Zrinit(z.r) ==> z.r.events == [] && (z.r.fileSize <= z.r.count ==> z.hasty))
    && Announced(z)
  }

  /** The start of the file is about to be noted, or has been. */
  predicate Announced(z: Sys)
    requires z.next > 0
  {
    if z.r.events == [] then z.started == z.next && z.persisted == []
    else z.r.events == [Rx.FileStart] && z.started == z.next - 1
  }

  /** A file is on offer. */
  predicate Offering(z: Sys)
    requires 1 <= z.next <= |z.files| && Sendable(z.Current())
  {
    var frame := ZfileMsgs(z.Current());
    match z.r.phase
    case SessionBegin =>
      && z.next == 1 && z.disk == [] && z.started == 0 && AtRest(z.r) && z.r.events == []
      && |z.down| >= 2 && Asking(z.down[..|z.down| - 2]) && z.down[|z.down| - 2..] == frame
      && Stale(z.up, Zrinit(z.r))
    case FileReadingMetadata =>
      && z.r.sub.Reading? && z.r.buf == [] && !z.r.escapePending && z.r.encoding == ZBIN32 && z.r.events == []
      && Filed(z.files, z.disk, z.next - 1, z.r.manual) && z.started == z.next - 1
      && z.down == frame[1..] && Stale(z.up, Zrinit(z.r))
    case FileAcceptPending =>
      && AtRest(z.r) && z.r.manual && z.down == [] && z.r.fileSize == |z.Current().content|
      && Filed(z.files, z.disk, z.next - 1, z.r.manual) && Announced(z) && Stale(z.up, Zrinit(z.r))
    case FileBegin =>
      if z.down != [] then z.next > 1 && Trailing(z, z.next - 1, frame) && Stale(z.up, Zrinit(z.r))
      else if z.r.active then Requested(z)
      else
        && Between(z.r) && z.r.events == [] && z.started == z.next && Filed(z.files, z.disk, z.next, z.r.manual)
        && Holding(z.up, Zrinit(z.r), Rx.ZSKIP_HEADER)
    case _ => false
  }

  /** The sender's part of a data transfer: what it sends next, or that it waits. */
  predicate Sending(s: Tx.TxState, reach: nat)
  {
    s.phase == Tx.NeedFileData ==> s.request.Some? && s.request.value.offset == reach
  }

  /** The frame on its way to a receiver that waits at `c`. */
  predicate Answering(z: Sys, tail: seq<Tx.Msg>, c: u32)
    requires 1 <= z.next <= |z.files|
  {
    if z.s.phase == Tx.NeedFileData && z.s.needsHeader then tail == [] && z.reach == c
    else
      && tail != [] && tail[0] == ZdataMsg(c)
      && Chain(tail[1..], z.Current().content, c, z.reach, z.s.phase == Tx.WaitFileAck)
  }

  /** The receiver waits at `c`: it has asked, or is being answered. Left-over
      subpackets come first, and then it is resynchronising. */
  predicate Awaiting(z: Sys)
    requires 1 <= z.next <= |z.files|
  {
    var c, zr := z.r.count, Zrinit(z.r);
    && z.r.sub.Resting? && z.r.reader.scan.Seeking? && (z.r.reader.resyncing || z.r.reader == FRESH)
    && z.stray <= |z.down| && AllData(z.down[..z.stray]) && (z.stray > 0 ==> z.r.reader.resyncing)
    && (if z.up == [] || z.r.phase == Rx.FileBegin then
          c < |z.Current().content| && Answering(z, z.down[z.stray..], c) && Stale(z.up, zr)
          && (z.r.phase == Rx.FileBegin ==> z.r.reader == FRESH)
        else if z.r.reader.resyncing then
          && Closed(z.up, zr, Zrpos(c)) && c < |z.Current().content|
          && z.stray == |z.down| && !(z.s.phase == Tx.NeedFileData && z.s.needsHeader)
        else Closed(z.up, zr, Zack(c)) && z.s.phase == Tx.WaitFileAck && z.reach == c && z.down == [])
  }

  /** The receiver is inside a data frame. */
  predicate Receiving(z: Sys)
    requires 1 <= z.next <= |z.files| && z.r.count <= |z.Current().content|
  {
    var content, c, closed := z.Current().content, z.r.count, z.s.phase == Tx.WaitFileAck;
    && Stale(z.up, Zrinit(z.r)) && z.stray == 0 && z.r.encoding == ZBIN32
    && !(z.s.phase == Tx.NeedFileData && z.s.needsHeader)
    && (z.r.sub.Reading? ==>
          && z.r.buf == [] && !z.r.escapePending
          && Chain(z.down, content, c, z.reach, closed))
    && (z.r.sub.Writing? ==>
          var e := c + |z.r.buf|;
          && e <= |content| && z.r.buf == content[c..e] && z.r.written < |z.r.buf|
          && (if z.r.sub.kind == ZCRCW then z.down == [] && closed && z.reach == e
              else z.r.sub.kind == ZCRCG && Chain(z.down, content, e, z.reach, closed)))
    && (z.r.sub.Reading? || z.r.sub.Writing?)
  }

  /** What is persisted goes from the offset accepted to where the receiver stands. */
  predicate Persisting(z: Sys)
    requires 1 <= z.next <= |z.files|
  {
    var e := z.r.count + if z.r.sub.Writing? then z.r.written else 0;
    z.start <= z.r.count && e <= |z.Current().content| && z.persisted == z.Current().content[z.start..e]
  }

  predicate Transferring(z: Sys)
    requires 1 <= z.next <= |z.files|
  {
    && Filed(z.files, z.disk, z.next - 1, z.r.manual) && z.started == z.next && z.r.events == []
    && z.r.fileSize == |z.Current().content| && Persisting(z)
    && z.r.count <= |z.Current().content| && z.reach <= |z.Current().content|
    && Sending(z.s, z.reach)
    && (if z.r.phase == Rx.FileReadingSubpacket then Receiving(z) else Waiting(z.r) && Awaiting(z))
  }

  /** The file has ended: ZEOF on its way, or its answer. A ZRINIT can be in front of
      that answer only if the receiver's timer was hasty. */
  predicate Closing(z: Sys)
    requires 1 <= z.next <= |z.files|
  {
    && Stale(z.up, Zrinit(z.r))
    && (if z.down == [] then Settled(z, z.next) && z.up != [] && (z.r.events != [] && |z.up| > 1 ==> z.hasty)
        else
          && z.down == [ZeofMsg(z.r.count)] && Waiting(z.r) && AtRest(z.r) && z.r.events == []
          && z.started == z.next && Filed(z.files, z.disk, z.next - 1, z.r.manual) && Whole(z, z.next)
          && (z.r.phase == Rx.FileBegin ==> z.r.fileSize <= z.r.count)
          && (z.up != [] ==> z.hasty && z.r.phase == Rx.FileBegin))
  }

  /** The receiver has taken its leave. */
  predicate Gone(z: Sys)
    requires z.next <= |z.files|
  {
    && z.r.phase == Rx.SessionEnd && z.r.sub.Resting? && z.r.reader.scan.Seeking?
    && Filed(z.files, z.disk, z.next, z.r.manual) && z.started == z.next
    && (z.r.events == [] || z.r.events == [Rx.SessionComplete])
  }

  /** The session is being closed. */
  predicate Leaving(z: Sys)
    requires z.next <= |z.files|
  {
    && z.next == |z.files|
    && (if z.down != [] then Trailing(z, z.next, [ZFIN_MSG]) && Stale(z.up, Zrinit(z.r))
        else Gone(z) && Closed(z.up, Zrinit(z.r), ZFIN_HEADER))
  }

  /** The sender has taken its leave; what still comes up is not looked at. */
  predicate Left(z: Sys)
    requires z.next <= |z.files|
  {
    && z.next == |z.files|
    && (if |z.down| > 1 then Trailing(z, z.next, [ZFIN_MSG, Tx.Over]) else (z.down == [] || z.down == [Tx.Over]) && Gone(z))
  }

  /** What holds whatever the phase. */
  predicate Common(z: Sys)
  {
    && 1 <= z.next <= |z.files| && (forall i :: 0 <= i < |z.files| ==> Sendable(z.files[i]))
    && z.s.fileName == z.Current().name && z.s.fileSize == |z.Current().content|
    && z.s.reader == FRESH && (!z.r.manual ==> z.start == 0)
    && Begun(z.files, z.started, z.start, z.persisted)
    && (z.s.finishRequested <==> z.s.phase == Tx.WaitFinish || z.s.phase == Tx.Finished)
    && (z.s.phase != Tx.NeedFileData && z.s.phase != Tx.WaitFileAck ==> z.stray == 0)
    && (match z.s.phase
        case ReadyForFile => z.s.event == None || z.s.event == Some(Tx.FileCompleted)
        case Finished => z.s.event == None || z.s.event == Some(Tx.SessionCompleted)
        case _ => z.s.event == None)
  }

  predicate Lawful(z: Sys)
  {
    && 1 <= z.next <= |z.files| && Sendable(z.Current())
    && Common(z)
    && match z.s.phase
       case WaitReceiverInit => Hello(z)
       case WaitFilePos => Offering(z)
       case NeedFileData => Transferring(z)
       case WaitFileAck => Transferring(z)
       case WaitFileDone => Closing(z)
       case ReadyForFile => Trailing(z, z.next, []) && Stale(z.up, Zrinit(z.r))
       case WaitFinish => Leaving(z)
       case Finished => Left(z)
  }

  predicate Inv(y: Sys)
  {
    && 1 <= y.next <= |y.files|
    && Tx.Inv(y.s) && Rx.Inv(y.r)
    && Mannered(y.r) && Prompt(y.s)
    && Lawful(Flat(y))
  }

  /** An event is queued only together with a header, which waits behind it, or when
      the caller is about to decide on a file. */
  predicate Mannered(r: Rx.RxState)
  {
    r.events != [] ==> r.out.Some? || r.phase == Rx.FileAcceptPending
  }

  /** When a file is reported nothing waits to go out. */
  predicate Prompt(s: Tx.TxState)
  {
    s.phase == Tx.ReadyForFile ==> s.out == []
  }

  // ---------------------------------------------------------------------
  // What is left to do
  // ---------------------------------------------------------------------

  /** How far the session is from its end, seen by the sender. */
  function Stage(y: Sys): nat
  {
    var left := if y.next <= |y.files| then |y.files| - y.next else 0;
    10 * left +
    match y.s.phase
    case WaitReceiverInit => 6
    case WaitFilePos => 5
    case NeedFileData => 4
    case WaitFileAck => 4
    case WaitFileDone => 3
    case ReadyForFile => 2
    case WaitFinish => 1
    case Finished => 0
  }

  /** File bytes the sender has still to read. */
  function Behind(y: Sys): nat
  {
    if 1 <= y.next <= |y.files| && (y.s.phase == Tx.NeedFileData || y.s.phase == Tx.WaitFileAck)
       && y.reach <= |y.Current().content|
    then |y.Current().content| - y.reach else 0
  }

  /** The work a frame brings to the receiver, and the work the receiver is in. */
  function Weight(m: Tx.Msg): nat
  {
    if m.Data? then |m.sub.data| + 3 else 4
  }

  function Load(r: Rx.RxState): nat
  {
    |r.events| + (if r.out.Some? then 2 else 0) + (if r.phase == Rx.FileAcceptPending then 3 else 0)
    + (if r.sub.Writing? && r.written <= |r.buf| then |r.buf| - r.written + 2 else 0)
  }
}
