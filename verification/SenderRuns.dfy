/** Whole runs of the sender: the shape of its data frames, and why they never
    overrun the receiver. */
module SenderRuns {
  import opened Primitives
  import opened HeaderCodec
  import opened HeaderReading
  import opened Subpackets
  import opened SenderSpec
  import opened SenderInvariant

  /** Anything that can happen to a sender: a wire byte, or a caller's call. */
  datatype Op =
    | Take(b: byte)
    | Supply(data: seq<byte>)
    | Window(subpackets: nat)
    | WireOut(n: nat)
    | Pop
    | Tick
    | Stop
    | Begin(name: seq<byte>, size: Option<u32>)
    | End

  /** The sender with what it has done since the receiver last asked for data: the
      last ZRINIT seen, the offset asked for, the bytes supplied since, the
      messages sent for them, and how many bytes the receiver allows. */
  datatype Log = Log(
    tx: TxState, advert: Option<Header>, start: nat, given: seq<byte>, frame: seq<Msg>, allowance: nat)

  /** What one frame may carry (section 9.5 of the ZMODEM specification): the
      advertised buffer; without one, the window if the receiver overlaps, and a
      single subpacket if not. */
  function Allowance(h: Header, window: nat): nat
  {
    if BufferLenOf(h) > 0 then BufferLenOf(h)
    else if OverlapOf(h) then window * SUBPACKET_MAX_SIZE
    else SUBPACKET_MAX_SIZE
  }

  function Advert(l: Log, o: Outcome): Option<Header>
  {
    if o.Got? && o.header.frame == ZRINIT then Some(o.header) else l.advert
  }

  function OnByte(l: Log, b: byte): Log
  {
    if l.tx.Blocked() then l
    else
      var t := TakeByte(l.tx, b).tx;
      var a := Advert(l, ReadStep(l.tx.reader, b).outcome);
      if t.request.Some? then
        Log(t, a, t.request.value.offset, [], [], if a.Some? then Allowance(a.value, t.window) else 0)
      else l.(tx := t, advert := a)
  }

  function OnSupply(l: Log, data: seq<byte>): Log
  {
    var p := SubmitFile(l.tx, data);
    if p.Done? then l.(tx := p.tx, given := l.given + data, frame := l.frame + p.tx.out) else l.(tx := p.tx)
  }

  function Step(l: Log, op: Op): Log
  {
    match op
    case Take(b) => OnByte(l, b)
    case Supply(data) => OnSupply(l, data)
    case Window(n) => l.(tx := SetStreamingWindow(l.tx, n))
    case WireOut(n) => l.(tx := WireWritten(l.tx, n))
    case Pop => l.(tx := PopEvent(l.tx))
    case Tick => l.(tx := Timeout(l.tx).tx)
    case Stop => l.(tx := Abort(l.tx))
    case Begin(name, size) => l.(tx := StartFile(l.tx, name, size).tx)
    case End => l.(tx := Finish(l.tx).tx)
  }

  function Steps(l: Log, ops: seq<Op>): Log
  {
    if ops == [] then l else Step(Steps(l, ops[..|ops| - 1]), ops[|ops| - 1])
  }

  const START: Log := Log(Initial(), None, 0, [], [], 0)

  // ---------------------------------------------------------------------
  // The shape of a frame
  // ---------------------------------------------------------------------

  /** Subpackets that carry exactly `bytes`, in order, none of them empty; only
      the last may, and does if `closed`, ask for an answer. */
  predicate Carries(ms: seq<Msg>, bytes: seq<byte>, closed: bool)
    decreases |ms|
  {
    ms != [] &&
    var last := ms[|ms| - 1];
    && last.Data? && 1 <= |last.sub.data| <= Min(SUBPACKET_MAX_SIZE, |bytes|)
    && last.sub == Sealed(ZBIN32, if closed then ZCRCW else ZCRCG, last.sub.data)
    && last.sub.data == bytes[|bytes| - |last.sub.data|..]
    && (if |ms| == 1 then last.sub.data == bytes
        else Carries(ms[..|ms| - 1], bytes[..|bytes| - |last.sub.data|], false))
  }

  /** One ZDATA header at the offset asked for, then the subpackets. */
  predicate Frame(ms: seq<Msg>, start: u32, bytes: seq<byte>, closed: bool)
  {
    ms != [] && ms[0] == Head(ZDATA_HEADER.WithCount(start)) && Carries(ms[1..], bytes, closed)
  }

  lemma CarriesOne(kind: SubpacketType, data: seq<byte>)
    requires 1 <= |data| <= SUBPACKET_MAX_SIZE && (kind == ZCRCW || kind == ZCRCG)
    ensures Carries([Data(Sealed(ZBIN32, kind, data))], data, kind == ZCRCW)
  {
    hide Sealed, Checksum;
    var ms := [Data(Sealed(ZBIN32, kind, data))];
    SealedData(kind, data);
    assert data[0..] == data;
    assert |ms| == 1 && ms[0].sub.data == data;
  }

  lemma CarriesMore(ms: seq<Msg>, bytes: seq<byte>, kind: SubpacketType, data: seq<byte>)
    requires Carries(ms, bytes, false)
    requires 1 <= |data| <= SUBPACKET_MAX_SIZE && (kind == ZCRCW || kind == ZCRCG)
    ensures Carries(ms + [Data(Sealed(ZBIN32, kind, data))], bytes + data, kind == ZCRCW)
  {
    hide Sealed;
    var all := ms + [Data(Sealed(ZBIN32, kind, data))];
    SealedData(kind, data);
    assert all[..|all| - 1] == ms;
    assert (bytes + data)[|bytes|..] == data && (bytes + data)[..|bytes|] == bytes;
  }

  lemma SealedData(kind: SubpacketType, data: seq<byte>)
    ensures Sealed(ZBIN32, kind, data).data == data
  {
  }

  // ---------------------------------------------------------------------
  // What is kept
  // ---------------------------------------------------------------------

  /** The pacing is the one the last ZRINIT and the window call for. */
  predicate Paced(t: TxState, advert: Option<Header>)
  {
    match advert
    case None => (t.phase == WaitReceiverInit || t.phase == Finished) && !t.nonstop
    case Some(h) =>
      && t.maxSubpacket == MaxSubpacketFor(BufferLenOf(h))
      && t.perAck == PerAckFor(BufferLenOf(h), OverlapOf(h), t.window)
      && t.nonstop == (BufferLenOf(h) == 0 && OverlapOf(h))
  }

  /** While data is asked for: where it goes on, what the frame looks like so far,
      and that the rest of the frame fits what the receiver allows. */
  predicate Open(l: Log)
    requires l.tx.request.Some?
  {
    && l.tx.request.value.offset == l.start + |l.given|
    && |l.given| + l.tx.frameRemaining * l.tx.maxSubpacket <= l.allowance
    && (if l.tx.needsHeader then l.frame == [] && l.given == []
        else l.start < 0x1_0000_0000 && Frame(l.frame, l.start, l.given, false))
  }

  /** While an answer is awaited: the frame is whole, closed once, and fits. */
  predicate Closed(l: Log)
  {
    && l.start < 0x1_0000_0000 && Frame(l.frame, l.start, l.given, true)
    && |l.given| <= l.allowance
  }

  predicate Kept(l: Log)
  {
    && Inv(l.tx) && Paced(l.tx, l.advert)
    && (l.tx.request.Some? ==> Open(l))
    && (l.tx.phase == WaitFileAck ==> Closed(l))
  }

  lemma StartKept()
    ensures Kept(START)
  {
    hide WireOf;
    InitialInv();
  }

  /** However the pacing came about, a frame of `perAck` subpackets is allowed. */
  lemma PacingFits(h: Header, window: nat)
    ensures PerAckFor(BufferLenOf(h), OverlapOf(h), window) * MaxSubpacketFor(BufferLenOf(h)) <= Allowance(h, window)
  {
    var b, m := BufferLenOf(h), MaxSubpacketFor(BufferLenOf(h));
    if b > 0 {
      QuotientFits(b, m);
    }
  }

  lemma QuotientFits(b: nat, m: nat)
    requires m > 0
    ensures (b / m) * m <= b
  {
    assert b == (b / m) * m + b % m;
  }

  lemma ScaleLess(a: nat, b: nat, m: nat)
    requires a <= b
    ensures a * m <= b * m
  {
  }

  // ---------------------------------------------------------------------
  // Steps
  // ---------------------------------------------------------------------

  /** What a wire byte can do: it may open a frame at the pace in force, and does
      not close one. */
  predicate Opens(t: TxState, u: TxState)
  {
    && (u.request.Some? ==> u.needsHeader && u.frameRemaining <= u.perAck)
    && (u.phase == WaitFileAck ==> t.phase == WaitFileAck)
    && u.window == t.window
  }

  /** Pacing untouched. */
  predicate SamePace(t: TxState, u: TxState)
  {
    u.maxSubpacket == t.maxSubpacket && u.perAck == t.perAck && u.nonstop == t.nonstop
    && u.window == t.window
  }

  lemma ZrposOpens(t: TxState, offset: u32)
    requires t.request.None?
    ensures Opens(t, OnZrpos(t, offset).tx) && SamePace(t, OnZrpos(t, offset).tx)
    ensures t.phase == WaitReceiverInit ==> OnZrpos(t, offset).tx.phase == WaitReceiverInit
    ensures t.phase == Finished ==> OnZrpos(t, offset).tx.phase == Finished
  {
    hide DivCeil;
  }

  lemma ZrinitOpens(t: TxState, h: Header)
    requires t.request.None?
    ensures
      var u := OnZrinit(t, h).tx;
      Opens(t, u) && SamePace(UpdateCaps(t, h), u)
  {
    hide MaxSubpacketFor, PerAckFor, ZfileFrame;
  }

  lemma HeaderOpens(t: TxState, advert: Option<Header>, h: Header)
    requires t.request.None? && Paced(t, advert)
    ensures
      var u := HandleHeader(t, h).tx;
      Opens(t, u) && Paced(u, if h.frame == ZRINIT then Some(h) else advert)
  {
    hide MaxSubpacketFor, PerAckFor, OnZrinit, OnZrpos, BufferLenOf, OverlapOf, Header.Count;
    if h.frame == ZRINIT {
      ZrinitOpens(t, h);
    } else {
      ZrposOpens(t, h.Count());
    }
  }

  lemma ByteOpens(l: Log, b: byte)
    requires l.tx.request.None? && Paced(l.tx, l.advert)
    ensures
      var u := TakeByte(l.tx, b).tx;
      Opens(l.tx, u) && Paced(u, Advert(l, ReadStep(l.tx.reader, b).outcome))
  {
    hide ReadStep, HandleHeader, Paced;
    var s := ReadStep(l.tx.reader, b);
    var u := l.tx.(reader := s.reader);
    PacedSame(l.tx, u, l.advert);
    if s.outcome.Got? {
      HeaderOpens(u, l.advert, s.outcome.header);
    } else {
      PacedSame(l.tx, Queue(u, [Head(ZNAK_HEADER)]).tx, l.advert);
    }
  }

  lemma PacedSame(t: TxState, u: TxState, advert: Option<Header>)
    requires Paced(t, advert) && SamePace(t, u)
    requires u.phase == t.phase
    ensures Paced(u, advert)
  {
  }

  lemma OnByteKept(l: Log, b: byte)
    requires Kept(l)
    ensures Kept(OnByte(l, b))
  {
    hide WireOf, DivCeil, TakeByte, ReadStep, Frame, Allowance, MaxSubpacketFor, PerAckFor, Inv;
    if !l.tx.Blocked() {
      TakeByteInv(l.tx, b);
      ByteOpens(l, b);
      var k := OnByte(l, b);
      if k.tx.request.Some? {
        RequestPhase(k.tx);
        var h := k.advert.value;
        PacingFits(h, k.tx.window);
        ScaleLess(k.tx.frameRemaining, k.tx.perAck, k.tx.maxSubpacket);
      }
    }
  }

  lemma RequestPhase(t: TxState)
    requires Inv(t)
    ensures t.request.Some? <==> t.phase == NeedFileData
    ensures t.request.Some? ==> 1 <= t.frameRemaining && t.request.value.len <= t.maxSubpacket <= SUBPACKET_MAX_SIZE
  {
  }

  lemma OnSupplyKept(l: Log, data: seq<byte>)
    requires Kept(l)
    ensures Kept(OnSupply(l, data))
  {
    hide WireOf, DivCeil, SubmitFile, Inv, Open, Closed, Paced;
    SubmitFileInv(l.tx, data);
    if SubmitFile(l.tx, data).Done? {
      RequestPhase(l.tx);
      Supplied(l, data);
    }
  }

  lemma Supplied(l: Log, data: seq<byte>)
    requires Kept(l) && SubmitFile(l.tx, data).Done?
    ensures
      var k := OnSupply(l, data);
      && Paced(k.tx, k.advert)
      && (k.tx.request.Some? ==> Open(k))
      && (k.tx.phase == WaitFileAck ==> Closed(k))
  {
    hide WireOf, DivCeil, Frame, DataFrame, MaxSubpacketFor, PerAckFor, BufferLenOf, OverlapOf;
    var t, k := l.tx, OnSupply(l, data);
    var kind := if ClosesFrame(t, data) then ZCRCW else ZCRCG;
    assert k.tx.out == DataFrame(t.request.value.offset, data, kind, t.needsHeader);
    FrameGrows(l, data, kind);
    assert t.frameRemaining * t.maxSubpacket >= t.maxSubpacket + (t.frameRemaining - 1) * t.maxSubpacket;
    assert (t.frameRemaining - 1) * t.maxSubpacket >= 0;
  }

  lemma FrameGrows(l: Log, data: seq<byte>, kind: SubpacketType)
    requires l.tx.request.Some? && Open(l) && (kind == ZCRCW || kind == ZCRCG)
    requires 1 <= |data| <= SUBPACKET_MAX_SIZE && l.start < 0x1_0000_0000
    ensures Frame(l.frame + DataFrame(l.tx.request.value.offset, data, kind, l.tx.needsHeader), l.start, l.given + data, kind == ZCRCW)
  {
    hide Sealed, Carries, Header.WithCount;
    var d := Data(Sealed(ZBIN32, kind, data));
    var all := l.frame + DataFrame(l.tx.request.value.offset, data, kind, l.tx.needsHeader);
    if l.tx.needsHeader {
      CarriesOne(kind, data);
      assert all[1..] == [d] && l.given + data == data;
    } else {
      CarriesMore(l.frame[1..], l.given, kind, data);
      assert all[1..] == l.frame[1..] + [d];
    }
  }

  lemma StepKept(l: Log, op: Op)
    requires Kept(l)
    ensures Kept(Step(l, op))
  {
    hide WireOf, DivCeil, Inv, Frame, OnByte, OnSupply, MaxSubpacketFor, Requested;
    match op {
      case Take(b) => OnByteKept(l, b);
      case Supply(data) => OnSupplyKept(l, data);
      case Window(n) => SetStreamingWindowInv(l.tx, n);
      case WireOut(n) => WireWrittenInv(l.tx, n);
      case Pop => PopEventInv(l.tx);
      case Tick => TimeoutInv(l.tx);
      case Stop => AbortInv(l.tx);
      case Begin(name, size) => BeginKept(l, name, size);
      case End => EndKept(l);
    }
  }

  lemma BeginKept(l: Log, name: seq<byte>, size: Option<u32>)
    requires Kept(l)
    ensures Kept(Step(l, Begin(name, size)))
  {
    hide WireOf, DivCeil, Frame, MaxSubpacketFor, PerAckFor, ZfileFrame, Inv;
    StartFileInv(l.tx, name, size);
    RequestPhase(l.tx);
  }

  lemma EndKept(l: Log)
    requires Kept(l)
    ensures Kept(Step(l, End))
  {
    hide WireOf, DivCeil, Frame, MaxSubpacketFor, PerAckFor, Inv;
    FinishInv(l.tx);
    RequestPhase(l.tx);
  }

  /** Any run whatever: any wire bytes, any data, any calls, in any order. While
      data is asked for the request is well formed, and every frame that waits for
      an answer is one ZDATA at the offset asked for, then exactly the bytes
      supplied, closed once, and within what the receiver allowed. */
  lemma {:induction false} RunKept(ops: seq<Op>)
    ensures Kept(Steps(START, ops))
    decreases |ops|
  {
    hide Kept, Step;
    if ops == [] {
      StartKept();
    } else {
      var head := ops[..|ops| - 1];
      RunKept(head);
      StepKept(Steps(START, head), ops[|ops| - 1]);
    }
  }
}
