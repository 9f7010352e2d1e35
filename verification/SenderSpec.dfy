/** The sender as a value: what every operation does to its whole state, and the
    answer to one wire byte. */
module SenderSpec {
  import opened Primitives
  import opened HeaderCodec
  import opened HeaderReading
  import opened Subpackets
  import opened FileMetadata

  datatype SenderPhase =
    | WaitReceiverInit | ReadyForFile | WaitFilePos | NeedFileData
    | WaitFileAck | WaitFileDone | WaitFinish | Finished

  datatype SenderEvent = FileCompleted | SessionCompleted | Stopped

  datatype FileRequest = FileRequest(offset: u32, len: nat)

  /** What travels to the receiver: a header, a data subpacket, or the closing OO. */
  datatype Msg = Head(header: Header) | Data(sub: SubWire) | Over

  const OO: seq<byte> := [0x4F, 0x4F]

  function MsgBytes(m: Msg): seq<byte>
  {
    match m
    case Head(h) => EncHeader(h)
    case Data(s) => s.Bytes()
    case Over => OO
  }

  function WireOf(ms: seq<Msg>): seq<byte>
  {
    if ms == [] then [] else MsgBytes(ms[0]) + WireOf(ms[1..])
  }

  /** `out` is what is still being written to the wire, `sent` how many of its
      bytes are already out. */
  datatype TxState = TxState(
    phase: SenderPhase,
    fileName: seq<byte>,
    fileSize: u32,
    hasFile: bool,
    request: Option<FileRequest>,
    frameRemaining: nat,
    needsHeader: bool,
    maxSubpacket: nat,
    perAck: nat,
    out: seq<Msg>,
    sent: nat,
    reader: Reader,
    event: Option<SenderEvent>,
    finishRequested: bool,
    window: nat,
    nonstop: bool)
  {
    /** The wire bytes on offer to the caller. */
    function WireBytes(): (s: seq<byte>)
      ensures s != [] ==> out != []
    {
      if sent <= |WireOf(out)| then WireOf(out)[sent..] else []
    }

    /** No wire input is taken: something waits to go out, file data is asked for,
        or the session is over. */
    predicate Blocked()
    {
      out != [] || phase == Finished || request.Some?
    }
  }

  datatype Reply = Done(tx: TxState) | Refused(tx: TxState, error: Error) {
    predicate IsFailure()
    {
      Refused?
    }

    function PropagateFailure(): Reply
    {
      this
    }

    function Extract(): TxState
    {
      tx
    }
  }

  // ---------------------------------------------------------------------
  // Queueing
  // ---------------------------------------------------------------------

  function Queue(t: TxState, ms: seq<Msg>): Reply
  {
    if t.out != [] then Refused(t, Backpressure) else Done(t.(out := ms, sent := 0))
  }

  /** The ZFILE header and its metadata. */
  function ZfileFrame(name: seq<byte>, size: u32): seq<Msg>
  {
    [Head(ZFILE_HEADER), Data(Sealed(ZBIN32, ZCRCW, Metadata(name, size)))]
  }

  /** One data subpacket, behind a ZDATA header if it opens a frame. */
  function DataFrame(offset: u32, data: seq<byte>, kind: SubpacketType, header: bool): seq<Msg>
  {
    (if header then [Head(ZDATA_HEADER.WithCount(offset))] else []) + [Data(Sealed(ZBIN32, kind, data))]
  }

  function QueueZfile(t: TxState): Reply
  {
    Queue(t, ZfileFrame(t.fileName, t.fileSize))
  }

  // ---------------------------------------------------------------------
  // Flow control
  // ---------------------------------------------------------------------

  /** The receiver's buffer length and whether it can overlap, as ZRINIT has them. */
  function BufferLenOf(h: Header): nat
  {
    var low: int, high: int := h.flags[0], h.flags[1];
    low + 0x100 * high
  }

  predicate OverlapOf(h: Header)
  {
    h.flags[3] / 2 % 2 == 1
  }

  function MaxSubpacketFor(bufferLen: nat): nat
  {
    if bufferLen == 0 then SUBPACKET_MAX_SIZE else Min(SUBPACKET_MAX_SIZE, bufferLen)
  }

  function PerAckFor(bufferLen: nat, overlap: bool, window: nat): nat
  {
    if !overlap then 1
    else if bufferLen == 0 then window
    else
      var n := bufferLen / MaxSubpacketFor(bufferLen);
      if n == 0 then 1 else n
  }

  function UpdateCaps(t: TxState, h: Header): TxState
  {
    var b, o := BufferLenOf(h), OverlapOf(h);
    t.(nonstop := b == 0 && o, maxSubpacket := MaxSubpacketFor(b), perAck := PerAckFor(b, o, t.window))
  }

  function SetStreamingWindow(t: TxState, subpackets: nat): TxState
  {
    var w := if subpackets < 1 then 1 else subpackets;
    t.(window := w, perAck := if t.nonstop then w else t.perAck)
  }

  // ---------------------------------------------------------------------
  // Headers
  // ---------------------------------------------------------------------

  function HandleHeader(t: TxState, h: Header): Reply
  {
    if h.frame == ZRINIT then OnZrinit(t, h)
    else if h.frame == ZRPOS || h.frame == ZACK then OnZrpos(t, h.Count())
    else if h.frame == ZSKIP then Done(OnZskip(t))
    else if h.frame == ZABORT || h.frame == ZCAN then Done(Abort(t))
    else if h.frame == ZFIN then OnZfin(t)
    else if t.phase == WaitReceiverInit then Queue(t, [Head(ZRQINIT_HEADER)])
    else Done(t)
  }

  function OnZrinit(t: TxState, h: Header): Reply
  {
    var c := UpdateCaps(t, h);
    if t.phase == WaitReceiverInit then
      if t.hasFile then
        var q :- QueueZfile(c);
        Done(q.(phase := WaitFilePos))
      else if t.finishRequested then
        var q :- Queue(c.(phase := ReadyForFile), [Head(ZFIN_HEADER)]);
        Done(q.(phase := WaitFinish))
      else Done(c.(phase := ReadyForFile))
    else if t.phase == WaitFileDone then
      var d := c.(event := Some(FileCompleted), hasFile := false);
      if t.finishRequested then
        var q :- Queue(d, [Head(ZFIN_HEADER)]);
        Done(q.(phase := WaitFinish))
      else Done(d.(phase := ReadyForFile))
    else if t.phase == WaitFinish then EndSession(c)
    else Done(c)
  }

  function EndSession(t: TxState): Reply
  {
    var q :- Queue(t, [Over]);
    Done(q.(phase := Finished, event := Some(SessionCompleted)))
  }

  function DivCeil(a: nat, b: nat): nat
    requires b > 0
  {
    (a + b - 1) / b
  }

  /** ZRPOS and ZACK: go on from an offset, or say that the file ends there. */
  function OnZrpos(t: TxState, offset: u32): Reply
  {
    if t.phase == WaitReceiverInit then Queue(t, [Head(ZRQINIT_HEADER)])
    else if t.phase == WaitFilePos || t.phase == WaitFileAck || t.phase == NeedFileData then
      if offset >= t.fileSize then
        var q :- Queue(t, [Head(ZEOF_HEADER.WithCount(offset))]);
        Done(q.(phase := WaitFileDone, request := None))
      else Done(OpenFrame(t, offset))
    else Done(t)
  }

  function OpenFrame(t: TxState, offset: u32): TxState
  {
    var remaining := if offset <= t.fileSize then t.fileSize - offset else 0;
    var step := if t.maxSubpacket > 0 then t.maxSubpacket else 1;
    t.(
      frameRemaining := Min(t.perAck, DivCeil(remaining, step)),
      needsHeader := true,
      request := Some(FileRequest(offset, Min(step, remaining))),
      phase := NeedFileData)
  }

  function OnZskip(t: TxState): TxState
  {
    if t.phase == WaitFilePos || t.phase == NeedFileData || t.phase == WaitFileAck || t.phase == WaitFileDone then
      t.(hasFile := false, request := None, frameRemaining := 0, event := Some(FileCompleted), phase := ReadyForFile)
    else t
  }

  function Abort(t: TxState): TxState
  {
    t.(phase := Finished, request := None, event := Some(Stopped))
  }

  function OnZfin(t: TxState): Reply
  {
    if t.phase == WaitFinish then EndSession(t) else Done(t)
  }

  // ---------------------------------------------------------------------
  // One wire byte, and a run of them
  // ---------------------------------------------------------------------

  function TakeByte(t: TxState, b: byte): Reply
  {
    var s := ReadStep(t.reader, b);
    OnOutcome(t.(reader := s.reader), s.outcome)
  }

  function OnOutcome(t: TxState, o: Outcome): Reply
  {
    match o
    case Nothing => Done(t)
    case Got(h) => HandleHeader(t, h)
    case Failed(e) => Refused(Queue(t, [Head(ZNAK_HEADER)]).tx, e)
  }

  /** How a run of offered bytes ends, as on the receiving side. */
  datatype Fed = Fed(tx: TxState) | Stalled(tx: TxState) | Broken(tx: TxState, error: Error)

  function FedOf(p: Reply): Fed
  {
    match p
    case Done(t) => Fed.Fed(t)
    case Refused(t, e) => Broken(t, e)
  }

  function Feed(t: TxState, wire: seq<byte>): Fed
    decreases |wire|
  {
    if wire == [] then Fed(t)
    else if t.Blocked() then Stalled(t)
    else
      match TakeByte(t, wire[0])
      case Done(t') => Feed(t', wire[1..])
      case Refused(t', e) => Broken(t', e)
  }

  lemma {:induction false} FeedConcat(t: TxState, a: seq<byte>, b: seq<byte>)
    requires Feed(t, a).Fed?
    ensures Feed(t, a + b) == Feed(Feed(t, a).tx, b)
    decreases |a|
  {
    hide TakeByte;
    if a == [] {
      assert a + b == b;
    } else {
      assert (a + b)[1..] == a[1..] + b;
      FeedConcat(TakeByte(t, a[0]).tx, a[1..], b);
    }
  }

  // ---------------------------------------------------------------------
  // The caller's operations
  // ---------------------------------------------------------------------

  function Initial(): TxState
  {
    TxState(
      WaitReceiverInit, [], 0, false, None, 0, false, SUBPACKET_MAX_SIZE, SUBPACKET_PER_ACK,
      [Head(ZRQINIT_HEADER)], 0, FRESH, None, false, SUBPACKET_PER_ACK, false)
  }

  /** Announces a file. The new file is on record even if its frame is refused. */
  function StartFile(t: TxState, name: seq<byte>, size: Option<u32>): Reply
  {
    if size.None? then Refused(t, UnsupportedFeature)
    else if t.phase != WaitReceiverInit && t.phase != ReadyForFile then Refused(t, InvalidState)
    else if |name| > NAME_CAP then Refused(t.(fileName := []), OutOfMemory)
    else
      var f := t.(fileName := name, fileSize := size.value, hasFile := true, request := None,
                  frameRemaining := 0, needsHeader := false);
      if t.phase == WaitReceiverInit then Done(f)
      else
        var q :- QueueZfile(f);
        Done(q.(phase := WaitFilePos))
  }

  function Finish(t: TxState): Reply
  {
    var f := t.(finishRequested := true);
    if t.phase != ReadyForFile then Done(f)
    else
      var q :- Queue(f, [Head(ZFIN_HEADER)]);
      Done(q.(phase := WaitFinish))
  }

  /** The subpacket that carries `data` is the last of its frame. */
  predicate ClosesFrame(t: TxState, data: seq<byte>)
    requires t.request.Some?
  {
    || t.frameRemaining <= 1
    || |data| < t.request.value.len
    || t.request.value.offset + |data| >= t.fileSize
  }

  function SubmitFile(t: TxState, data: seq<byte>): Reply
  {
    if t.phase != NeedFileData || t.request.None? then Refused(t, InvalidState)
    else
      var offset := t.request.value.offset;
      if data == [] || |data| > t.request.value.len || offset + |data| > t.fileSize then Refused(t, UnexpectedEof)
      else Emit(t, data)
  }

  /** Data that fits the request goes out, and the request moves on or ends. */
  function Emit(t: TxState, data: seq<byte>): Reply
    requires t.request.Some? && t.request.value.offset + |data| <= t.fileSize
  {
    var offset := t.request.value.offset;
    var last := ClosesFrame(t, data);
    var q :- Queue(t, DataFrame(offset, data, if last then ZCRCW else ZCRCG, t.needsHeader));
    var next := offset + |data|;
    if last then Done(q.(needsHeader := false, request := None, phase := WaitFileAck, frameRemaining := 0))
    else Done(q.(
      needsHeader := false,
      frameRemaining := if t.frameRemaining > 0 then t.frameRemaining - 1 else 0,
      request := Some(FileRequest(next, Min(t.maxSubpacket, t.fileSize - next)))))
  }

  function WireWritten(t: TxState, n: nat): TxState
  {
    if n >= |t.WireBytes()| then t.(out := [], sent := 0) else t.(sent := t.sent + n)
  }

  function PopEvent(t: TxState): TxState
  {
    t.(event := None)
  }

  function Timeout(t: TxState): Reply
  {
    if t.phase == WaitReceiverInit && t.out == [] then Queue(t, [Head(ZRQINIT_HEADER)]) else Done(t)
  }

  // ---------------------------------------------------------------------
  // The invariant
  // ---------------------------------------------------------------------

  /** A pending request fits what is left of the file and of the frame. */
  predicate Requested(t: TxState)
  {
    t.request.Some? ==>
      var r := t.request.value;
      && r.offset < t.fileSize
      && r.len == Min(t.maxSubpacket, t.fileSize - r.offset)
      && 1 <= t.frameRemaining <= DivCeil(t.fileSize - r.offset, if t.maxSubpacket > 0 then t.maxSubpacket else 1)
  }

  predicate Inv(t: TxState)
  {
    && (t.phase == NeedFileData <==> t.request.Some?)
    && Requested(t)
    && 1 <= t.maxSubpacket <= SUBPACKET_MAX_SIZE && 1 <= t.perAck && 1 <= t.window
    && |t.fileName| <= NAME_CAP
    && t.reader.Wf()
    && |WireOf(t.out)| <= WIRE_BUF_SIZE
    && (if t.out == [] then t.sent == 0 else t.sent < |WireOf(t.out)|)
  }
}
