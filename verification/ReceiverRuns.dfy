/** Whole runs of the receiver: what is conserved, what a completion means, how
    often it asks again, and why the slicing of the wire does not matter. */
module ReceiverRuns {
  import opened Primitives
  import opened HeaderCodec
  import opened HeaderReading
  import opened Subpackets
  import opened ReceiverSpec
  import opened ReceiverInvariant

  // ---------------------------------------------------------------------
  // Runs with a memory of the current file
  // ---------------------------------------------------------------------

  /** Anything that can happen to a receiver: a wire byte, or a caller's call. */
  datatype Op =
    | Take(b: byte)
    | WireOut(n: nat)
    | FileOut(n: nat)
    | Pop
    | Tick
    | Stop
    | Accept(offset: u32)
    | Decline
    | Manual(on: bool)

  /** The receiver with what it has done for the current file: the offset it was
      accepted at, the bytes persisted since, and the offsets asked for again
      since the last subpacket that went through. */
  datatype Log = Log(rx: RxState, start: u32, persisted: seq<byte>, asked: seq<u32>) {
    /** The file (re)starts at an offset. */
    function Restarted(r: RxState, offset: u32): Log
    {
      Log(r, offset, [], [])
    }

    /** Progress clears the list of repeated requests. */
    function Moved(r: RxState): Log
    {
      Log(r, start, persisted, if r.retries == 0 then [] else asked)
    }
  }

  /** The byte made the receiver ask for the data again. */
  predicate Recovered(r: RxState, p: Reply)
  {
    r.phase == FileReadingSubpacket && p.Done? && p.rx.phase == FileWaitingSubpacket && p.rx.reader.resyncing
      && p.rx.out.Some?
  }

  /** The byte completed a ZFILE frame. */
  predicate Announced(r: RxState, p: Reply)
  {
    r.phase == FileReadingMetadata && p.Done? && p.rx.phase != FileReadingMetadata
  }

  function OnByte(l: Log, b: byte): Log
  {
    if !l.rx.CanRead() then l
    else
      var p := TakeByte(l.rx, b);
      if Announced(l.rx, p) then l.Restarted(p.rx, 0)
      else if Recovered(l.rx, p) then Log(p.rx, l.start, l.persisted, l.asked + [p.rx.out.value.Count()])
      else l.Moved(p.rx)
  }

  function Step(l: Log, op: Op): Log
  {
    if Spent(l.rx) then l
    else
      match op
      case Take(b) => OnByte(l, b)
      case WireOut(n) => l.(rx := WireWritten(l.rx, n))
      case FileOut(n) =>
        var s := l.rx.FileBytes();
        l.(persisted := l.persisted + s[..Min(n, |s|)]).Moved(FileWritten(l.rx, n).rx)
      case Pop => l.(rx := PopEvent(l.rx))
      case Tick => l.(rx := Timeout(l.rx).rx)
      case Stop => l.(rx := Abort(l.rx).rx)
      case Accept(offset) =>
        var p := AcceptFileAt(l.rx, offset);
        if p.Done? then l.Restarted(p.rx, offset) else l.(rx := p.rx)
      case Decline => l.(rx := SkipFile(l.rx).rx)
      case Manual(on) => l.(rx := l.rx.(manual := on))
  }

  function Steps(l: Log, ops: seq<Op>): Log
  {
    if ops == [] then l else Step(Steps(l, ops[..|ops| - 1]), ops[|ops| - 1])
  }

  /** Where the receiver stands, counting bytes persisted but not yet acknowledged. */
  function Reached(r: RxState): nat
  {
    r.count + if r.sub.Writing? then r.written else 0
  }

  /** Conservation, and the retry budget. */
  predicate Kept(l: Log)
  {
    && (Inv(l.rx) || Spent(l.rx))
    && Reached(l.rx) == l.start + |l.persisted|
    && |l.asked| <= Min(l.rx.retries, MAX_ZRPOS_RETRIES)
    && (forall i :: 0 <= i < |l.asked| ==> l.asked[i] == l.rx.count)
  }

  lemma FreshKept(bufferLen: nat, overlapped: bool)
    requires bufferLen < 0x1_0000
    ensures Kept(Log(Initial(bufferLen, overlapped), 0, [], []))
  {
    InitialInv(bufferLen, overlapped);
  }

  /** What a byte can do to the offset and the retry counter. */
  predicate Effect(r: RxState, p: Reply)
  {
    && (Announced(r, p) ==> Reached(p.rx) == 0)
    && (!Announced(r, p) ==> Reached(p.rx) == Reached(r) && p.rx.count == r.count)
    && (Recovered(r, p) ==> p.rx.retries == r.retries + 1 && p.rx.out.value.Count() == r.count)
    && (p.rx.retries == 0 || p.rx.retries >= r.retries)
  }

  /** Nothing about offsets or retries changes, and no data comes on offer. */
  predicate Still(r: RxState, p: Reply)
  {
    && Reached(p.rx) == Reached(r) && p.rx.count == r.count && p.rx.retries == r.retries
    && (p.rx.sub.Writing? ==> r.sub.Writing?)
  }

  lemma ByteEffect(r: RxState, b: byte)
    requires Inv(r) && r.CanRead()
    ensures Effect(r, TakeByte(r, b))
  {
    hide EncHeader, TakeSubpacketByte, HandleHeader, ReadStep, Checked;
    if r.InSubpacket() {
      SubpacketByteEffect(r, b);
    } else {
      var s := ReadStep(r.reader, b);
      var t := r.(reader := s.reader);
      OutcomeStill(t, s.outcome);
    }
  }

  lemma OutcomeStill(r: RxState, o: Outcome)
    requires Matched(r) && !r.InSubpacket()
    ensures Still(r, OnOutcome(r, o))
  {
    hide HandleHeader;
    if o.Got? {
      HeaderStill(r, o.header);
    }
  }

  lemma HeaderStill(r: RxState, h: Header)
    requires Matched(r) && !r.InSubpacket()
    ensures Still(r, HandleHeader(r, h))
  {
    hide OnZsinit, OnZfile, OnZdata, OnZeof, OnZfin, ZrinitHeader;
    if r.phase == SessionBegin || r.phase == FileBegin || r.phase == FileWaitingSubpacket {
      FileHeadersStill(r, h);
      ClosingHeadersStill(r);
    }
  }

  lemma FileHeadersStill(r: RxState, h: Header)
    requires r.sub.Resting?
    ensures Still(r, Done(OnZsinit(r, h))) && Still(r, Done(OnZfile(r, h))) && Still(r, OnZdata(r, h))
  {
    hide LeBytes, FromLe;
  }

  lemma ClosingHeadersStill(r: RxState)
    ensures Still(r, OnZeof(r)) && Still(r, OnZfin(r))
  {
    hide ZrinitHeader;
  }

  lemma SubpacketByteEffect(r: RxState, b: byte)
    requires Inv(r) && r.CanRead() && r.InSubpacket()
    ensures Effect(r, TakeSubpacketByte(r, b))
  {
    hide EncHeader, CrcStep, Judged, CrcState.Updated, CrcAfter;
    if r.sub.Trailer? {
      var s := CrcStep(r.crc, r.encoding, b);
      JudgedEffect(r.(crc := s.crc), r.sub.kind, s.verdict);
    }
  }

  lemma JudgedEffect(r: RxState, k: SubpacketType, v: Verdict)
    requires r.InSubpacket() && r.sub == Trailer(k) && r.retries <= MAX_ZRPOS_RETRIES && r.reader == FRESH
    requires |r.buf| <= SUBPACKET_MAX_SIZE && r.CanRead()
    ensures Effect(r, Judged(r, k, v))
  {
    hide StartFile, FinishSubpacket, Recover;
    if v.Good? {
      if r.phase == FileReadingMetadata {
        StartFileEffect(r);
      } else if r.phase == FileReadingSubpacket && r.buf == [] {
        FinishEffect(r.(sub := Writing(k), written := 0), k);
      }
    } else if v.Bad? && r.phase == FileReadingSubpacket {
      RecoverEffect(r, v.error);
    }
  }

  lemma StartFileEffect(r: RxState)
    requires r.phase == FileReadingMetadata && r.sub.Trailer? && r.CanRead()
    ensures Effect(r, StartFile(r))
  {
    hide ParseZfile, LeBytes;
    ParseZfileShape(r);
    if ParseZfile(r).Refused? {
      ParseZfileRefused(r);
    }
  }

  lemma QueueFull(r: RxState, h: Header)
    requires r.out.Some?
    ensures Queue(r, h) == Refused(r, Backpressure)
  {
  }

  lemma RecoverEffect(r: RxState, e: Error)
    requires r.phase == FileReadingSubpacket && r.sub.Trailer? && r.retries <= MAX_ZRPOS_RETRIES
    ensures Effect(r, Recover(r, e))
  {
    hide Header.WithCount, Header.Count, Queue;
    CountRoundTrip(ZRPOS_HEADER, r.count);
    if r.out.None? {
      QueueShape(r.(retries := r.retries + 1).Cleared(), ZRPOS_HEADER.WithCount(r.count));
    } else {
      QueueFull(r.(retries := r.retries + 1).Cleared(), ZRPOS_HEADER.WithCount(r.count));
    }
  }

  lemma FinishEffect(r: RxState, k: SubpacketType)
    requires r.sub == Writing(k) && r.written == |r.buf|
    ensures
      var p := FinishSubpacket(r, k);
      && Reached(p.rx) == Reached(r)
      && (p.Done? ==> p.rx.retries == 0)
      && (p.Refused? && r.out.None? ==> p.rx == r)
      && (r.count + |r.buf| > MAX_COUNT ==> p == Refused(r, OutOfMemory))
      && (r.buf == [] ==> p.rx.count == r.count && p.rx.retries == 0)
      && (p.Done? && r.reader == FRESH ==> p.rx.reader == FRESH)
  {
    hide LeBytes;
  }

  /** Conservation and the retry budget survive every step. */
  lemma StepKept(l: Log, op: Op)
    requires Kept(l)
    ensures Kept(Step(l, op))
  {
    hide EncHeader, TakeByte, FileWritten, Inv, Spent;
    if !Spent(l.rx) {
      match op {
        case Take(b) => OnByteKept(l, b);
        case WireOut(n) => WireWrittenInv(l.rx, n);
        case FileOut(n) => FileOutKept(l, n);
        case Pop => PopEventInv(l.rx);
        case Tick => TimeoutInv(l.rx);
        case Stop => AbortInv(l.rx);
        case Accept(offset) => AcceptKept(l, offset);
        case Decline => SkipFileInv(l.rx);
        case Manual(on) => ManualInv(l.rx, on);
      }
    }
  }

  lemma AcceptKept(l: Log, offset: u32)
    requires Kept(l) && !Spent(l.rx)
    ensures Kept(Step(l, Accept(offset)))
  {
    hide EncHeader, Checked;
    AcceptFileAtInv(l.rx, offset);
  }

  lemma ManualInv(r: RxState, on: bool)
    requires Inv(r)
    ensures Inv(r.(manual := on))
  {
    hide EncHeader, Checked;
    if r.InSubpacket() {
      CheckedSame(r, r.(manual := on));
    }
  }

  lemma OnByteKept(l: Log, b: byte)
    requires Kept(l) && !Spent(l.rx)
    ensures Kept(OnByte(l, b))
  {
    hide EncHeader, TakeByte, Announced, Recovered, Reached, Checked;
    if l.rx.CanRead() {
      TakeByteInv(l.rx, b);
      ByteEffect(l.rx, b);
      var p := TakeByte(l.rx, b);
      if Recovered(l.rx, p) {
        RecoveredDone(l.rx, p);
        var asked := l.asked + [p.rx.out.value.Count()];
        assert forall i :: 0 <= i < |asked| ==> asked[i] == p.rx.count;
      }
    }
  }

  lemma RecoveredDone(r: RxState, p: Reply)
    requires Recovered(r, p)
    ensures p.Done? && p.rx.out.Some? && !Announced(r, p)
  {
  }

  lemma FileOutKept(l: Log, n: nat)
    requires Kept(l) && !Spent(l.rx)
    ensures Kept(Step(l, FileOut(n)))
  {
    hide EncHeader, Checked, FinishSubpacket;
    var r := l.rx;
    FileWrittenInv(r, n);
    if r.sub.Writing? {
      var w := r.(written := r.written + Min(n, |r.FileBytes()|));
      if w.written == |w.buf| {
        FinishEffect(w, w.sub.kind);
      }
    }
  }

  /** Conservation over any run whatever: any wire bytes, any calls, in any
      order, up to the first fatal error. */
  lemma {:induction false} RunKept(bufferLen: nat, overlapped: bool, ops: seq<Op>)
    requires bufferLen < 0x1_0000
    ensures Kept(Steps(Log(Initial(bufferLen, overlapped), 0, [], []), ops))
    decreases |ops|
  {
    hide Kept, Step;
    if ops == [] {
      FreshKept(bufferLen, overlapped);
    } else {
      var head := ops[..|ops| - 1];
      RunKept(bufferLen, overlapped, head);
      StepKept(Steps(Log(Initial(bufferLen, overlapped), 0, [], []), head), ops[|ops| - 1]);
    }
  }

  // ---------------------------------------------------------------------
  // What a completion means, and what is ever offered
  // ---------------------------------------------------------------------

  /** A byte announces a completed file only as the last byte of a ZEOF whose
      position is exactly what the caller persisted, from the offset it accepted. */
  lemma CompletionMeansAll(l: Log, b: byte)
    requires Kept(l) && !Spent(l.rx) && l.rx.CanRead()
    requires TakeByte(l.rx, b).rx.events == l.rx.events + [FileComplete]
    ensures
      var o := ReadStep(l.rx.reader, b).outcome;
      && o.Got? && o.header.frame == ZEOF
      && o.header.Count() == l.start + |l.persisted|
  {
    hide EncHeader, ReadStep, TakeSubpacketByte, HandleHeader, FromLe;
    var r := l.rx;
    if r.InSubpacket() {
      NoCompletionInside(r, b);
      assert false;
    } else {
      var s := ReadStep(r.reader, b);
      if s.outcome.Got? {
        CompletionHeader(r.(reader := s.reader), s.outcome.header);
      }
    }
  }

  lemma CompletionHeader(r: RxState, h: Header)
    requires Matched(r) && !r.InSubpacket()
    requires HandleHeader(r, h).rx.events == r.events + [FileComplete]
    ensures h.frame == ZEOF && h.Count() == r.count && r.sub.Resting?
  {
    hide LeBytes, FromLe;
    LastOf(r.events, FileComplete, SessionComplete);
    LastOf(r.events, FileComplete, Aborted);
  }

  lemma LastOf(s: seq<Event>, a: Event, b: Event)
    ensures s != s + [a]
    ensures a != b ==> s + [a] != s + [b]
  {
    assert |s + [a]| == |s| + 1;
    assert (s + [a])[|s|] == a && (s + [b])[|s|] == b;
  }

  /** Inside a subpacket the only event is the start of a file. */
  predicate StartsAtMost(r: RxState, p: Reply)
  {
    p.rx.events == r.events || p.rx.events == r.events + [FileStart]
  }

  lemma NoCompletionInside(r: RxState, b: byte)
    ensures TakeSubpacketByte(r, b).rx.events != r.events + [FileComplete]
  {
    hide CrcStep, CrcState.Updated, Judged;
    LastOf(r.events, FileComplete, FileStart);
    if r.sub.Trailer? {
      var s := CrcStep(r.crc, r.encoding, b);
      JudgedStarts(r.(crc := s.crc), r.sub.kind, s.verdict);
    }
  }

  lemma JudgedStarts(r: RxState, k: SubpacketType, v: Verdict)
    ensures StartsAtMost(r, Judged(r, k, v))
  {
    hide StartFile, FinishSubpacket, Recover;
    StartFileStarts(r);
    FinishStarts(r, k);
    FinishStarts(r.(sub := Writing(k), written := 0), k);
    if v.Bad? {
      RecoverStarts(r, v.error);
    }
  }

  lemma StartFileStarts(r: RxState)
    ensures StartsAtMost(r, StartFile(r))
  {
    hide ParseZfile, LeBytes;
    ParseZfileShape(r);
  }

  lemma FinishStarts(r: RxState, k: SubpacketType)
    ensures StartsAtMost(r, FinishSubpacket(r, k))
  {
    hide LeBytes;
  }

  lemma RecoverStarts(r: RxState, e: Error)
    ensures StartsAtMost(r, Recover(r, e))
  {
    hide LeBytes;
  }

  /** Data comes on offer only when its trailer is the batch checksum of exactly
      that data and its terminator. */
  lemma OfferedOnlySealed(r: RxState, b: byte)
    requires Inv(r) && r.CanRead() && !r.sub.Writing? && TakeByte(r, b).rx.sub.Writing?
    ensures
      var w := TakeByte(r, b).rx;
      && r.sub.Trailer? && w.sub == Writing(r.sub.kind)
      && w.buf == r.buf != [] && w.FileBytes() == w.buf
      && SubWire(r.sub.kind, w.buf, w.crc.got).Intact(r.encoding)
  {
    hide EncHeader, ReadStep, HandleHeader, TakeSubpacketByte, Checked;
    if r.InSubpacket() {
      SealedByte(r, b);
    } else {
      var s := ReadStep(r.reader, b);
      OutcomeStill(r.(reader := s.reader), s.outcome);
    }
  }

  lemma SealedByte(r: RxState, b: byte)
    requires Inv(r) && r.CanRead() && r.InSubpacket() && !r.sub.Writing? && TakeSubpacketByte(r, b).rx.sub.Writing?
    ensures
      var w := TakeSubpacketByte(r, b).rx;
      && r.sub.Trailer? && w.sub == Writing(r.sub.kind)
      && w.buf == r.buf != [] && w.FileBytes() == w.buf
      && SubWire(r.sub.kind, w.buf, w.crc.got).Intact(r.encoding)
  {
    hide EncHeader, CrcStep, Judged, CrcAfter, CrcState.Updated, Checksum;
    if r.sub.Trailer? {
      var s := CrcStep(r.crc, r.encoding, b);
      CrcStepShape(r.crc, r.encoding, b);
      JudgedWriting(r.(crc := s.crc), r.sub.kind, s.verdict);
      TrailerExpected(r);
    }
  }

  lemma TrailerExpected(r: RxState)
    requires Checked(r) && r.sub.Trailer?
    ensures r.crc.Expected(r.encoding) == Checksum(r.encoding, r.buf + [KindByte(r.sub.kind)])
  {
    IncrementalIsBatch(r.encoding, r.buf + [KindByte(r.sub.kind)]);
  }

  lemma JudgedWriting(r: RxState, k: SubpacketType, v: Verdict)
    requires r.InSubpacket() && r.sub == Trailer(k) && r.CanRead() && r.count <= MAX_COUNT
    requires Judged(r, k, v).rx.sub.Writing?
    ensures v.Good? && r.buf != [] && Judged(r, k, v) == Done(r.(sub := Writing(k), written := 0))
  {
    hide StartFile, FinishSubpacket, Recover;
    StartOffersNothing(r);
    if r.buf == [] {
      EmptyOffersNothing(r.(sub := Writing(k), written := 0), k);
    }
    if v.Bad? {
      RecoverOffersNothing(r, v.error);
    }
  }

  lemma StartOffersNothing(r: RxState)
    requires !r.sub.Writing?
    ensures !StartFile(r).rx.sub.Writing?
  {
    hide LeBytes, ParseZfile;
    ParseZfileShape(r);
  }

  lemma EmptyOffersNothing(r: RxState, k: SubpacketType)
    requires r.buf == [] && r.count <= MAX_COUNT && r.out.None?
    ensures !FinishSubpacket(r, k).rx.sub.Writing?
  {
    hide LeBytes;
  }

  lemma RecoverOffersNothing(r: RxState, e: Error)
    requires !r.sub.Writing?
    ensures !Recover(r, e).rx.sub.Writing?
  {
    hide LeBytes;
  }

  // ---------------------------------------------------------------------
  // The end of a session is not quite the end
  // ---------------------------------------------------------------------

  /** Data that was on offer when the session was aborted and is then persisted to
      its last byte moves the receiver on, by two of the four terminators. */
  predicate Revives(r: RxState, op: Op)
  {
    && op.FileOut? && r.sub.Writing? && (r.sub.kind == ZCRCW || r.sub.kind == ZCRCE)
    && r.written + Min(op.n, |r.FileBytes()|) == |r.buf|
    && r.count + |r.buf| <= MAX_COUNT
  }

  /** A receiver whose session has ended stays there exactly unless such data is
      persisted. */
  lemma SessionEndStays(l: Log, op: Op)
    requires Kept(l) && Inv(l.rx) && l.rx.phase == SessionEnd
    ensures Step(l, op).rx.phase == SessionEnd <==> !Revives(l.rx, op)
  {
    hide EncHeader, Checked, ReadStep, TakeByte, FileWritten;
    if op.Take? && l.rx.CanRead() {
      EndedByte(l.rx, op.b);
    } else if op.FileOut? {
      EndedWrite(l.rx, op.n);
    }
  }

  lemma EndedByte(r: RxState, b: byte)
    requires r.phase == SessionEnd && r.retries <= MAX_ZRPOS_RETRIES
    ensures TakeByte(r, b).rx.phase == SessionEnd
  {
    hide ReadStep;
  }

  lemma EndedWrite(r: RxState, n: nat)
    requires Inv(r) && r.phase == SessionEnd
    ensures FileWritten(r, n).rx.phase == SessionEnd <==> !Revives(r, FileOut(n))
  {
    hide EncHeader, Checked, LeBytes;
  }

  // ---------------------------------------------------------------------
  // Between files
  // ---------------------------------------------------------------------

  /** Between files a stray or resent ZEOF completes nothing. But a ZDATA at the
      offset where the last file ended opens it again, and nothing else does. */
  lemma BetweenFiles(r: RxState, h: Header)
    requires Inv(r) && r.CanRead() && r.phase == FileBegin && !r.active && r.reader == FRESH
    ensures HandleHeader(r, h).rx.events != r.events + [FileComplete]
    ensures HandleHeader(r, h).rx.phase == FileReadingSubpacket <==> h.frame == ZDATA && h.Count() == r.count
  {
    hide EncHeader, Checked, LeBytes, FromLe;
    LastOf(r.events, FileComplete, SessionComplete);
    LastOf(r.events, FileComplete, Aborted);
  }
}
