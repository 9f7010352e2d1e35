/** How the sender paces itself: the pacing that a ZRINIT calls for, told on the four bytes
    that travel, and when a frame is closed. */
module SenderPacing {
  import opened Primitives
  import opened HeaderCodec
  import opened HeaderReading
  import opened Subpackets
  import opened SenderSpec
  import opened SenderInvariant
  import opened SenderRuns
  import opened Negotiation

  // ---------------------------------------------------------------------
  // The pacing a ZRINIT calls for
  // ---------------------------------------------------------------------

  /** Subpackets of the buffer length, of at most 1024 bytes. With CANOVIO as many of them
      as fit the buffer, or the window if there is no buffer length; else one. */
  predicate Pace(bufferLen: nat, overlap: bool, window: nat, size: nat, perAck: nat)
  {
    && (bufferLen == 0 || bufferLen >= 1024 ==> size == 1024)
    && (0 < bufferLen < 1024 ==> size == bufferLen)
    && (!overlap ==> perAck == 1)
    && (overlap && bufferLen == 0 ==> perAck == window)
    && (overlap && bufferLen > 0 ==> perAck * size <= bufferLen < (perAck + 1) * size)
  }

  lemma LargestQuotient(a: nat, b: nat)
    requires b > 0
    ensures (a / b) * b <= a < (a / b + 1) * b
  {
    assert a == (a / b) * b + a % b;
    assert (a / b + 1) * b == (a / b) * b + b;
  }

  lemma PaceOf(bufferLen: nat, overlap: bool, window: nat)
    ensures Pace(bufferLen, overlap, window, MaxSubpacketFor(bufferLen), PerAckFor(bufferLen, overlap, window))
  {
    if bufferLen > 0 {
      var m := MaxSubpacketFor(bufferLen);
      LargestQuotient(bufferLen, m);
      AtLeastOne(bufferLen, m, bufferLen / m);
    }
  }

  lemma AtLeastOne(a: nat, b: nat, q: nat)
    requires 0 < b <= a < (q + 1) * b
    ensures q >= 1
  {
    if q == 0 {
      assert false;
    }
  }

  /** A ZRINIT sets the largest pacing that its buffer length allows, and nothing else. */
  lemma CapsExact(t: TxState, h: Header, bufferLen: nat, overlap: bool)
    requires Says(h.flags, bufferLen, overlap)
    ensures
      var u := UpdateCaps(t, h);
      && Pace(bufferLen, overlap, t.window, u.maxSubpacket, u.perAck)
      && (u.nonstop <==> bufferLen == 0 && overlap)
      && u == t.(nonstop := u.nonstop, maxSubpacket := u.maxSubpacket, perAck := u.perAck)
  {
    hide MaxSubpacketFor, PerAckFor;
    ReadsWhatItSays(h);
    PaceOf(bufferLen, overlap, t.window);
  }

  /** The same, whatever the ZRINIT says. */
  lemma CapsCalledFor(t: TxState, h: Header)
    ensures
      var u := UpdateCaps(t, h);
      forall bufferLen, overlap :: Says(h.flags, bufferLen, overlap) && bufferLen >= 0 ==>
        && Pace(bufferLen, overlap, t.window, u.maxSubpacket, u.perAck)
        && (u.nonstop <==> bufferLen == 0 && overlap)
  {
    hide UpdateCaps, Says, Pace;
    forall bufferLen, overlap | Says(h.flags, bufferLen, overlap) && bufferLen >= 0
      ensures
        var u := UpdateCaps(t, h);
        && Pace(bufferLen, overlap, t.window, u.maxSubpacket, u.perAck)
        && (u.nonstop <==> bufferLen == 0 && overlap)
    {
      CapsExact(t, h, bufferLen, overlap);
    }
  }

  /** Before any ZRINIT: whole subpackets, ten of them, and a window of ten. A new window
      is at least one, and changes the pacing of a nonstop receiver only. */
  lemma WindowExact(t: TxState, n: nat)
    ensures Initial().maxSubpacket == 1024 && Initial().perAck == 10 && Initial().window == 10 && !Initial().nonstop
    ensures
      var u := SetStreamingWindow(t, n);
      && (n >= 1 ==> u.window == n) && (n == 0 ==> u.window == 1)
      && u.perAck == (if t.nonstop then u.window else t.perAck)
      && u == t.(window := u.window, perAck := u.perAck)
  {
  }

  // ---------------------------------------------------------------------
  // When a frame is closed
  // ---------------------------------------------------------------------

  /** What was in force when the frame was opened. */
  datatype Opening = Opening(advert: Option<Header>, window: nat, size: nat, quota: nat)

  /** A run of the sender with its last opening, and whether its caller has since read all
      that was asked for every time. */
  datatype Pacing = Pacing(l: Log, at: Option<Opening>, full: bool)

  function PacedStep(p: Pacing, op: Op): Pacing
  {
    var k := SenderRuns.Step(p.l, op);
    if op.Take? && !p.l.tx.Blocked() && k.tx.request.Some? then
      Pacing(k, Some(Opening(k.advert, k.tx.window, k.tx.maxSubpacket, k.tx.perAck)), true)
    else if op.Supply? && p.l.tx.request.Some? && SubmitFile(p.l.tx, op.data).Done? then
      Pacing(k, p.at, p.full && |op.data| == p.l.tx.request.value.len)
    else Pacing(k, p.at, p.full)
  }

  function PacedSteps(ops: seq<Op>): Pacing
  {
    if ops == [] then Pacing(START, None, false)
    else PacedStep(PacedSteps(ops[..|ops| - 1]), ops[|ops| - 1])
  }

  /** How many subpackets the frame has so far: all its messages but the ZDATA. */
  function Sent(l: Log): nat
  {
    if l.frame == [] then 0 else |l.frame| - 1
  }

  /** The pacing at the opening is what the last ZRINIT called for. */
  predicate Called(o: Opening)
  {
    o.advert.Some? &&
    var low: int, high: int, caps: int := o.advert.value.flags[0], o.advert.value.flags[1], o.advert.value.flags[3];
    Pace(low + 0x100 * high, caps / 2 % 2 == 1, o.window, o.size, o.quota)
  }

  /** While data is asked for: a whole subpacket or the rest of the file is asked for, where
      the last read ended; the frame is short of its quota and has whole subpackets so far;
      and if what is left of it is less than the quota allows, it reaches the end of the
      file. */
  predicate Underway(p: Pacing)
    requires p.l.tx.request.Some?
  {
    var t := p.l.tx;
    p.at.Some? && Called(p.at.value) &&
    var o, n := p.at.value, Sent(p.l) + t.frameRemaining;
    && t.maxSubpacket == o.size
    && t.request.value.offset == p.l.start + |p.l.given|
    && t.request.value.len == Min(o.size, t.fileSize - t.request.value.offset)
    && |p.l.given| == Sent(p.l) * o.size
    && 1 <= t.frameRemaining && n <= o.quota
    && (n < o.quota ==> p.l.start + n * o.size >= t.fileSize)
  }

  /** A frame that waits for its answer is within its quota, and short of it only at the
      end of the file or after a read that was short. */
  predicate Whole(p: Pacing)
  {
    && p.at.Some? && Called(p.at.value)
    && 1 <= Sent(p.l) <= p.at.value.quota
    && (p.full && p.l.start + |p.l.given| < p.l.tx.fileSize ==> Sent(p.l) == p.at.value.quota)
  }

  predicate PacedWell(p: Pacing)
  {
    && (p.l.tx.request.Some? ==> Underway(p))
    && (p.l.tx.phase == WaitFileAck ==> Whole(p))
  }

  // ---------------------------------------------------------------------
  // Openings
  // ---------------------------------------------------------------------

  lemma CeilReaches(a: nat, b: nat)
    requires b > 0
    ensures DivCeil(a, b) * b >= a
  {
    LargestQuotient(a + b - 1, b);
    assert ((a + b - 1) / b + 1) * b == ((a + b - 1) / b) * b + b;
  }

  /** A frame just opened has its quota to go, or as many subpackets as the file has. */
  predicate JustOpened(t: TxState)
    requires t.request.Some?
  {
    && t.needsHeader && t.request.value.offset < t.fileSize && t.maxSubpacket > 0
    && t.frameRemaining == Min(t.perAck, DivCeil(t.fileSize - t.request.value.offset, t.maxSubpacket))
  }

  lemma PositionOpens(t: TxState, offset: u32)
    requires Inv(t) && t.request.None?
    ensures
      var u := OnZrpos(t, offset).tx;
      && u.fileSize == t.fileSize
      && (u.request.Some? ==> JustOpened(u))
  {
    hide DivCeil, WireOf;
  }

  lemma ZrinitOpensNone(t: TxState, h: Header)
    requires t.request.None?
    ensures OnZrinit(t, h).tx.request.None? && OnZrinit(t, h).tx.fileSize == t.fileSize
  {
    hide UpdateCaps, ZfileFrame;
    CapsOnly(t, h);
  }

  lemma EndsOpenNone(t: TxState)
    requires t.request.None?
    ensures OnZfin(t).tx.request.None? && OnZfin(t).tx.fileSize == t.fileSize
    ensures OnZskip(t).request.None? && OnZskip(t).fileSize == t.fileSize
    ensures Abort(t).request.None? && Abort(t).fileSize == t.fileSize
  {
  }

  lemma HeaderJustOpens(t: TxState, h: Header)
    requires Inv(t) && t.request.None?
    ensures
      var u := HandleHeader(t, h).tx;
      && u.fileSize == t.fileSize
      && (u.request.Some? ==> JustOpened(u))
  {
    hide Inv, JustOpened, OnZrpos, OnZrinit, OnZfin, OnZskip, Abort, Header.Count;
    PositionOpens(t, h.Count());
    ZrinitOpensNone(t, h);
    EndsOpenNone(t);
  }

  lemma ByteJustOpens(t: TxState, b: byte)
    requires Inv(t) && !t.Blocked()
    ensures
      var u := TakeByte(t, b).tx;
      && u.fileSize == t.fileSize
      && (u.request.Some? ==> JustOpened(u))
  {
    hide Inv, ReadStep, HandleHeader, JustOpened;
    var s := ReadStep(t.reader, b);
    var v := t.(reader := s.reader);
    FailureKind(t.reader, b);
    ReaderInv(t, s.reader);
    if s.outcome.Got? {
      HeaderJustOpens(v, s.outcome.header);
    }
  }

  lemma CalledNow(t: TxState, advert: Option<Header>)
    requires Paced(t, advert) && t.phase == NeedFileData
    ensures Called(Opening(advert, t.window, t.maxSubpacket, t.perAck))
  {
    hide Pace, MaxSubpacketFor, PerAckFor;
    var h := advert.value;
    PaceOf(BufferLenOf(h), OverlapOf(h), t.window);
  }

  lemma OpenedWell(p: Pacing, b: byte)
    requires Kept(p.l) && PacedWell(p)
    ensures PacedWell(PacedStep(p, Take(b)))
  {
    hide Inv, TakeByte, ReadStep, Called, Paced, Open, Closed, Allowance;
    var k := PacedStep(p, Take(b));
    if !p.l.tx.Blocked() {
      OnByteKept(p.l, b);
      ByteJustOpens(p.l.tx, b);
      ByteOpens(p.l, b);
      if k.l.tx.request.Some? {
        RequestPhase(k.l.tx);
        CalledNow(k.l.tx, k.l.advert);
        FreshUnderway(k);
      }
    }
  }

  lemma FreshUnderway(p: Pacing)
    requires Inv(p.l.tx) && p.l.tx.request.Some? && JustOpened(p.l.tx) && p.at.Some? && Called(p.at.value)
    requires p.at.value.size == p.l.tx.maxSubpacket && p.at.value.quota == p.l.tx.perAck
    requires p.l.start == p.l.tx.request.value.offset && p.l.given == [] && p.l.frame == []
    ensures Underway(p)
  {
    hide Called, WireOf, DivCeil;
    var t := p.l.tx;
    CeilReaches(t.fileSize - t.request.value.offset, t.maxSubpacket);
  }

  // ---------------------------------------------------------------------
  // Reads
  // ---------------------------------------------------------------------

  /** What a read does to the sender: it closes the frame, or takes one off what is left. */
  lemma SubmitShape(t: TxState, data: seq<byte>)
    requires Inv(t) && t.request.Some? && SubmitFile(t, data).Done?
    ensures
      var u, r := SubmitFile(t, data).tx, t.request.value;
      && 1 <= |data| <= r.len && r.offset + |data| <= t.fileSize
      && u.fileSize == t.fileSize && u.maxSubpacket == t.maxSubpacket
      && |u.out| == (if t.needsHeader then 2 else 1)
      && (u.request.None? <==> t.frameRemaining == 1 || |data| < r.len || r.offset + |data| == t.fileSize)
      && (u.request.Some? ==> u.frameRemaining == t.frameRemaining - 1)
      && (u.phase == WaitFileAck <==> u.request.None?)
  {
    hide WireOf, DivCeil, Sealed, Header.WithCount;
  }

  lemma OneMore(n: nat, size: nat)
    ensures n * size + size == (n + 1) * size
  {
  }

  lemma SuppliedWell(p: Pacing, data: seq<byte>)
    requires Kept(p.l) && PacedWell(p) && p.l.tx.request.Some? && SubmitFile(p.l.tx, data).Done?
    ensures PacedWell(PacedStep(p, Supply(data)))
  {
    hide Inv, SubmitFile, Called, Paced, Closed, SenderRuns.Frame;
    var t := p.l.tx;
    SubmitShape(t, data);
    RequestLen(t);
    OnSupplyKept(p.l, data);
    if PacedStep(p, Supply(data)).l.tx.request.Some? {
      RequestLen(PacedStep(p, Supply(data)).l.tx);
    }
    OneMore(Sent(p.l), p.at.value.size);
    var k := PacedStep(p, Supply(data));
    OpenSent(p.l);
    assert Sent(k.l) == Sent(p.l) + 1;
  }

  lemma RequestLen(t: TxState)
    requires Inv(t) && t.request.Some?
    ensures t.request.value.len == Min(t.maxSubpacket, t.fileSize - t.request.value.offset)
  {
    hide WireOf, DivCeil;
  }

  lemma OpenSent(l: Log)
    requires l.tx.request.Some? && Open(l)
    ensures l.tx.needsHeader <==> l.frame == []
  {
    hide Carries;
  }

  // ---------------------------------------------------------------------
  // Any run
  // ---------------------------------------------------------------------

  /** A call that is neither a wire byte nor a read leaves an open or waiting frame alone. */
  lemma CallLeavesFrame(l: Log, op: Op)
    requires Inv(l.tx) && !op.Take? && !op.Supply?
    ensures
      var k := SenderRuns.Step(l, op);
      && (k.tx.request.Some? ==> l.tx.request == k.tx.request && k.tx.frameRemaining == l.tx.frameRemaining
                                 && k.tx.maxSubpacket == l.tx.maxSubpacket && k.tx.fileSize == l.tx.fileSize)
      && (k.tx.phase == WaitFileAck ==> l.tx.phase == WaitFileAck && k.tx.fileSize == l.tx.fileSize)
      && k == l.(tx := k.tx)
  {
    hide WireOf, DivCeil, ZfileFrame;
  }

  lemma RefusedSupply(l: Log, data: seq<byte>)
    requires Inv(l.tx) && (l.tx.request.None? || SubmitFile(l.tx, data).Refused?)
    ensures SenderRuns.Step(l, Supply(data)) == l
  {
    hide Inv, SubmitFile;
    SubmitFileInv(l.tx, data);
    NoRequest(l.tx, data);
  }

  lemma NoRequest(t: TxState, data: seq<byte>)
    ensures t.request.None? ==> SubmitFile(t, data) == Refused(t, InvalidState)
  {
  }

  lemma StepWell(p: Pacing, op: Op)
    requires Kept(p.l) && PacedWell(p)
    ensures PacedWell(PacedStep(p, op))
  {
    hide Inv, SubmitFile, SenderRuns.Step, Called, Paced, Open, Closed, TakeByte;
    if op.Take? {
      OpenedWell(p, op.b);
    } else if op.Supply? {
      if p.l.tx.request.Some? && SubmitFile(p.l.tx, op.data).Done? {
        SuppliedWell(p, op.data);
      } else {
        RefusedSupply(p.l, op.data);
      }
    } else {
      CallLeavesFrame(p.l, op);
    }
  }

  lemma {:induction false} LogOf(ops: seq<Op>)
    ensures PacedSteps(ops).l == Steps(START, ops)
    decreases |ops|
  {
    hide SenderRuns.Step, SubmitFile, TxState.Blocked;
    if ops != [] {
      LogOf(ops[..|ops| - 1]);
    }
  }

  /** Over any run: a frame has as many subpackets as the pacing at its opening allows, which
      is the largest the last ZRINIT called for; with fewer it is closed only at the end of
      the file or after a read that was short; and it is not gone on with once it has them. */
  lemma {:induction false} RunPaced(ops: seq<Op>)
    ensures PacedWell(PacedSteps(ops))
    decreases |ops|
  {
    hide Kept, PacedWell, PacedStep;
    if ops == [] {
      NothingPaced();
    } else {
      var head := ops[..|ops| - 1];
      RunPaced(head);
      RunKept(head);
      LogOf(head);
      StepWell(PacedSteps(head), ops[|ops| - 1]);
    }
  }

  lemma NothingPaced()
    ensures PacedWell(PacedSteps([]))
  {
  }
}
