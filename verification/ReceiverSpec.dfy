/** The receiver as a value: what every operation does to its whole state, and the
    answer to one wire byte. */
module ReceiverSpec {
  import opened Primitives
  import opened Zdle
  import opened HeaderCodec
  import opened HeaderReading
  import opened Subpackets
  import opened FileMetadata

  const EVENT_QUEUE_CAP: nat := 4
  const MAX_ZRPOS_RETRIES: nat := 10
  const MAX_COUNT: nat := 0xFFFF_FFFF

  datatype ReceiverPhase =
    | SessionBegin | SinitReadingData | FileBegin | FileReadingMetadata
    | FileAcceptPending | FileReadingSubpacket | FileWaitingSubpacket | SessionEnd

  datatype SubpacketPhase =
    | Resting | SkipTrailer | Reading | Writing(kind: SubpacketType) | Trailer(kind: SubpacketType)

  datatype Event = FileStart | FileComplete | SessionComplete | Aborted

  /** `out` is the header still being written to the wire, `sent` how many of its
      bytes are already out. */
  datatype RxState = RxState(
    phase: ReceiverPhase,
    count: u32,
    fileName: seq<byte>,
    fileSize: u32,
    buf: seq<byte>,
    written: nat,
    encoding: Encoding,
    reader: Reader,
    sub: SubpacketPhase,
    escapePending: bool,
    crc: CrcState,
    out: Option<Header>,
    sent: nat,
    events: seq<Event>,
    bufferLen: nat,
    overlapped: bool,
    manual: bool,
    retries: nat,
    active: bool)
  {
    /** The file bytes on offer to the caller. */
    function FileBytes(): (s: seq<byte>)
      ensures s != [] ==> sub.Writing?
    {
      if sub.Writing? && written <= |buf| then buf[written..] else []
    }

    /** The wire bytes on offer to the caller. */
    function WireBytes(): (s: seq<byte>)
      ensures s != [] ==> out.Some?
    {
      if out.Some? && sent <= |EncHeader(out.value)| then EncHeader(out.value)[sent..] else []
    }

    predicate EventsFull()
    {
      |events| >= EVENT_QUEUE_CAP
    }

    /** No wire input is taken until the caller drains what is on offer. */
    predicate Blocked()
    {
      out.Some? || FileBytes() != [] || EventsFull()
    }

    /** The phases that read a subpacket rather than headers. */
    predicate InSubpacket()
    {
      phase == FileReadingSubpacket || phase == FileReadingMetadata || phase == SinitReadingData
    }

    /** A byte offered now is taken. The second half is a refused offset overflow. */
    predicate CanRead()
    {
      !Blocked() && !(InSubpacket() && sub.Writing?)
    }

    /** Ready for the first byte of a subpacket. */
    function Cleared(): RxState
    {
      this.(buf := [], written := 0, crc := NO_CRC, escapePending := false)
    }
  }

  /** What an operation that can fail leaves behind, either way. */
  datatype Reply = Done(rx: RxState) | Refused(rx: RxState, error: Error) {
    predicate IsFailure()
    {
      Refused?
    }

    function PropagateFailure(): Reply
    {
      this
    }

    function Extract(): RxState
    {
      rx
    }
  }

  // ---------------------------------------------------------------------
  // Queueing
  // ---------------------------------------------------------------------

  function Queue(r: RxState, h: Header): Reply
  {
    if r.out.Some? then Refused(r, Backpressure) else Done(r.(out := Some(h), sent := 0))
  }

  const ZSKIP_HEADER: Header := Header(ZHEX, ZSKIP, [0, 0, 0, 0])

  /** ZRINIT: the buffer length, then CANFDX | CANFC32, with CANOVIO if overlapped. */
  function ZrinitHeader(bufferLen: nat, overlapped: bool): Header
  {
    Header(ZHEX, ZRINIT, [bufferLen % 0x100, bufferLen / 0x100 % 0x100, 0, if overlapped then 0x23 else 0x21])
  }

  function QueueZrinit(r: RxState): Reply
  {
    Queue(r, ZrinitHeader(r.bufferLen, r.overlapped))
  }

  function QueueZrpos(r: RxState, count: u32): Reply
  {
    Queue(r, ZRPOS_HEADER.WithCount(count))
  }

  function QueueZack(r: RxState): Reply
  {
    Queue(r, ZACK_HEADER.WithCount(r.count))
  }

  function PushEvent(r: RxState, e: Event): Reply
  {
    if r.EventsFull() then Refused(r, OutOfMemory) else Done(r.(events := r.events + [e]))
  }

  // ---------------------------------------------------------------------
  // Headers
  // ---------------------------------------------------------------------

  function HandleHeader(r: RxState, h: Header): Reply
  {
    var between := r.phase == FileBegin || r.phase == FileWaitingSubpacket;
    if (h.frame == ZRQINIT || h.frame == ZDATA) && r.phase == SessionBegin then QueueZrinit(r)
    else if h.frame == ZSINIT && r.phase == SessionBegin then Done(OnZsinit(r, h))
    else if h.frame == ZFILE && (r.phase == SessionBegin || r.phase == FileBegin) then Done(OnZfile(r, h))
    else if h.frame == ZDATA && between then OnZdata(r, h)
    else if h.frame == ZEOF && (r.phase == FileWaitingSubpacket || (r.phase == FileBegin && r.active))
            && h.Count() == r.count then OnZeof(r)
    else if h.frame == ZABORT || h.frame == ZCAN then PushEvent(r.(phase := SessionEnd), Aborted)
    else if h.frame == ZFIN && between then OnZfin(r)
    else Done(r)
  }

  /** ZSINIT: a hex header announces binary CRC-16 data behind a line trailer. */
  function OnZsinit(r: RxState, h: Header): RxState
  {
    r.Cleared().(
      encoding := if h.encoding == ZHEX then ZBIN else h.encoding,
      phase := SinitReadingData,
      sub := if h.encoding == ZHEX then SkipTrailer else Reading)
  }

  function OnZfile(r: RxState, h: Header): RxState
  {
    r.Cleared().(encoding := h.encoding, phase := FileReadingMetadata, sub := Reading)
  }

  function OnZdata(r: RxState, h: Header): Reply
  {
    if h.Count() != r.count then QueueZrpos(r, r.count)
    else Done(r.Cleared().(encoding := h.encoding, phase := FileReadingSubpacket, sub := Reading))
  }

  function OnZeof(r: RxState): Reply
  {
    var q :- QueueZrinit(r);
    PushEvent(q.(phase := FileBegin, active := false), FileComplete)
  }

  function OnZfin(r: RxState): Reply
  {
    var q :- Queue(r, ZFIN_HEADER);
    PushEvent(q.(phase := SessionEnd), SessionComplete)
  }

  // ---------------------------------------------------------------------
  // Subpacket bytes
  // ---------------------------------------------------------------------

  /** The line trailer after a hex header, with or without the high bit. */
  predicate LineTrailer(b: byte)
  {
    b in {0x0D, 0x0A, 0x8D, 0x8A, 0x11, 0x13, 0x91, 0x93}
  }

  function TakeData(r: RxState, b: byte): Reply
  {
    if |r.buf| >= SUBPACKET_MAX_SIZE then Refused(r, OutOfMemory)
    else Done(r.(buf := r.buf + [b], crc := r.crc.Updated(b, r.encoding)))
  }

  /** The byte after a ZDLE: a terminator or an escaped data byte. */
  function TakeFollower(r: RxState, b: byte): Reply
  {
    var k := KindOf(b);
    if k.Some? then Done(r.(crc := r.crc.Updated(b, r.encoding), sub := Trailer(k.value)))
    else TakeData(r, Uncover(b))
  }

  function TakePlain(r: RxState, b: byte): Reply
  {
    if b == ZDLE then Done(r.(escapePending := true)) else TakeData(r, b)
  }

  function TakeSubpacketByte(r: RxState, b: byte): Reply
  {
    match r.sub
    case SkipTrailer =>
      if LineTrailer(b) then Done(r) else TakePlain(r.(sub := Reading), b)
    case Reading =>
      if r.escapePending then TakeFollower(r.(escapePending := false), b) else TakePlain(r, b)
    case Trailer(k) =>
      var s := CrcStep(r.crc, r.encoding, b);
      Judged(r.(crc := s.crc), k, s.verdict)
    case _ => Refused(r, InvalidState)
  }

  /** What the trailer check decides. Only data is worth a rewind. */
  function Judged(r: RxState, k: SubpacketType, v: Verdict): Reply
  {
    match v
    case More => Done(r)
    case Good => CompleteSubpacket(r, k)
    case Bad(e) => if r.phase == FileReadingSubpacket then Recover(r, e) else Refused(r, e)
  }

  function CompleteSubpacket(r: RxState, k: SubpacketType): Reply
  {
    if r.phase == FileReadingMetadata then StartFile(r)
    else if r.phase == SinitReadingData then
      var q :- Queue(r.Cleared(), ZACK_HEADER);
      Done(q.(phase := SessionBegin, sub := Resting))
    else
      var w := r.(sub := Writing(k), written := 0);
      if w.buf == [] then FinishSubpacket(w, k) else Done(w)
  }

  /** The metadata is in: announce the file and, unless the caller decides, ask
      for it from the start. */
  function StartFile(r: RxState): Reply
  {
    var p :- ParseZfile(r);
    var c := p.Cleared();
    if c.manual then PushEvent(c.(phase := FileAcceptPending, sub := Resting), FileStart)
    else
      var q :- QueueZrpos(c, 0);
      PushEvent(q.(phase := FileBegin, active := true, sub := Resting), FileStart)
  }

  function ParseZfile(r: RxState): Reply
  {
    var name := Field(r.buf, NUL);
    if name == [] then Refused(r, MalformedFileName)
    else if |name| > NAME_CAP then Refused(r.(fileName := []), OutOfMemory)
    else
      var info := ParseInfo(r.buf);
      if info.Err? then Refused(r.(fileName := name), info.error)
      else Done(r.(fileName := name, fileSize := info.value.size, count := 0))
  }

  /** The data is persisted: move the offset and answer as the terminator asks. */
  function FinishSubpacket(r: RxState, k: SubpacketType): Reply
  {
    if r.count + |r.buf| > MAX_COUNT then Refused(r, OutOfMemory)
    else
      var c := r.Cleared().(count := r.count + |r.buf|, retries := 0);
      match k
      case ZCRCW =>
        var q :- QueueZack(c);
        Done(q.(phase := FileWaitingSubpacket, sub := Resting))
      case ZCRCQ =>
        var q :- QueueZack(c);
        Done(q.(sub := Reading))
      case ZCRCG => Done(c.(sub := Reading))
      case ZCRCE => Done(c.(phase := FileWaitingSubpacket, sub := Resting))
  }

  /** A corrupt data subpacket: ask for a rewind and skip to the next header. */
  function Recover(r: RxState, e: Error): Reply
  {
    var t := r.(retries := Min(r.retries + 1, 0xFF));
    if t.retries > MAX_ZRPOS_RETRIES then Refused(t, e)
    else
      var q :- QueueZrpos(t.Cleared(), t.count);
      Done(q.(phase := FileWaitingSubpacket, sub := Resting, reader := q.reader.(resyncing := true)))
  }

  // ---------------------------------------------------------------------
  // One wire byte, and a run of them
  // ---------------------------------------------------------------------

  function TakeByte(r: RxState, b: byte): Reply
  {
    if r.InSubpacket() then TakeSubpacketByte(r, b)
    else
      var s := ReadStep(r.reader, b);
      OnOutcome(r.(reader := s.reader), s.outcome)
  }

  function OnOutcome(r: RxState, o: Outcome): Reply
  {
    match o
    case Nothing => Done(r)
    case Got(h) => HandleHeader(r, h)
    case Failed(e) => Refused(Queue(r, ZNAK_HEADER).rx, e)
  }

  /** How a run of offered bytes ends: all taken, one offered while none could be
      taken, or one refused. */
  datatype Fed = Fed(rx: RxState) | Stalled(rx: RxState) | Broken(rx: RxState, error: Error)

  function Feed(r: RxState, wire: seq<byte>): Fed
    decreases |wire|
  {
    if wire == [] then Fed(r)
    else if !r.CanRead() then Stalled(r)
    else
      match TakeByte(r, wire[0])
      case Done(r') => Feed(r', wire[1..])
      case Refused(r', e) => Broken(r', e)
  }

  lemma {:induction false} FeedConcat(r: RxState, a: seq<byte>, b: seq<byte>)
    requires Feed(r, a).Fed?
    ensures Feed(r, a + b) == Feed(Feed(r, a).rx, b)
    decreases |a|
  {
    hide TakeByte;
    if a == [] {
      assert a + b == b;
    } else {
      assert (a + b)[1..] == a[1..] + b;
      FeedConcat(TakeByte(r, a[0]).rx, a[1..], b);
    }
  }

  // ---------------------------------------------------------------------
  // The caller's operations
  // ---------------------------------------------------------------------

  function Initial(bufferLen: nat, overlapped: bool): RxState
  {
    RxState(
      SessionBegin, 0, [], 0, [], 0, ZBIN, FRESH, Resting, false, NO_CRC,
      Some(ZrinitHeader(bufferLen, overlapped)), 0, [], bufferLen, overlapped, false, 0, false)
  }

  function WireWritten(r: RxState, n: nat): RxState
  {
    if n >= |r.WireBytes()| then r.(out := None, sent := 0) else r.(sent := r.sent + n)
  }

  function FileWritten(r: RxState, n: nat): Reply
  {
    if !r.sub.Writing? then Done(r)
    else
      var w := r.(written := r.written + Min(n, |r.FileBytes()|));
      if w.written < |w.buf| then Done(w) else FinishSubpacket(w, w.sub.kind)
  }

  function PopEvent(r: RxState): RxState
  {
    if r.events == [] then r else r.(events := r.events[1..])
  }

  function Timeout(r: RxState): Reply
  {
    if (r.phase == SessionBegin || r.phase == FileBegin) && r.out.None? then QueueZrinit(r) else Done(r)
  }

  function Abort(r: RxState): Reply
  {
    PushEvent(r.(phase := SessionEnd), Aborted)
  }

  function AcceptFileAt(r: RxState, offset: u32): Reply
  {
    if r.phase != FileAcceptPending then Refused(r, InvalidState)
    else
      var q :- QueueZrpos(r, offset);
      Done(q.(count := offset, phase := FileBegin, active := true))
  }

  function SkipFile(r: RxState): Reply
  {
    if r.phase != FileAcceptPending then Refused(r, InvalidState)
    else
      var q :- Queue(r, ZSKIP_HEADER);
      Done(q.(phase := FileBegin, active := false))
  }

  // ---------------------------------------------------------------------
  // The invariant
  // ---------------------------------------------------------------------

  /** Sizes and cursors. */
  predicate Sized(r: RxState)
  {
    && r.reader.Wf()
    && |r.buf| <= SUBPACKET_MAX_SIZE && r.written <= |r.buf|
    && |r.events| <= EVENT_QUEUE_CAP
    && |r.fileName| <= NAME_CAP
    && r.bufferLen < 0x1_0000
    && (if r.out.Some? then r.sent < |EncHeader(r.out.value)| else r.sent == 0)
  }

  /** Which subpacket phases go with which phase. */
  predicate Matched(r: RxState)
  {
    match r.phase
    case FileReadingMetadata => r.sub.Reading? || r.sub.Trailer?
    case SinitReadingData => r.sub.SkipTrailer? || r.sub.Reading? || r.sub.Trailer?
    case FileReadingSubpacket => r.sub.Reading? || r.sub.Trailer? || r.sub.Writing?
    case SessionEnd => true
    case _ => r.sub.Resting?
  }

  /** The running checksum is the checksum of what is staged. */
  predicate Checked(r: RxState)
  {
    match r.sub
    case SkipTrailer => r.buf == [] && r.crc == NO_CRC && !r.escapePending
    case Reading => r.crc == CrcAfter(r.encoding, r.buf)
    case Trailer(k) =>
      && |r.crc.got| < CrcLen(r.encoding)
      && r.crc == CrcAfter(r.encoding, r.buf + [KindByte(k)]).(got := r.crc.got, escapePending := r.crc.escapePending)
    case _ => true
  }

  /** Data on offer is never empty, and nothing waits to go out beside it, unless
      its offset was refused for passing 32 bits. */
  predicate Offered(r: RxState)
  {
    r.sub.Writing? ==>
      && r.buf != []
      && (r.out.Some? ==> r.written == |r.buf|)
      && (r.written == |r.buf| ==> r.count + |r.buf| > MAX_COUNT)
  }

  predicate Inv(r: RxState)
  {
    && Sized(r) && Matched(r) && Offered(r)
    && r.retries <= MAX_ZRPOS_RETRIES
    && (r.InSubpacket() ==> Checked(r) && r.reader == FRESH)
  }

  /** A checksum or metadata error left a full trailer behind: the end of the run. */
  predicate Spent(r: RxState)
  {
    r.InSubpacket() && r.sub.Trailer? && |r.crc.got| == CrcLen(r.encoding)
  }
}
