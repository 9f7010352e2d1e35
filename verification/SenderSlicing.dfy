/** The slicing of the wire does not matter to the sender either, but for one thing:
    it keeps one event, and a slice that brings two makes it forget the first. */
module SenderSlicing {
  import opened Primitives
  import opened HeaderCodec
  import opened HeaderReading
  import opened SenderSpec
  import opened SenderInvariant
  import SenderFrames

  /** A sender and everything its caller has drained from it, with a count of the
      events that were replaced before the caller saw them. */
  datatype Tape = Tape(tx: TxState, wire: seq<byte>, events: seq<SenderEvent>, lost: nat)

  /** What a caller asks of the sender beyond taking bytes and draining. */
  datatype Call =
    | Begin(name: seq<byte>, size: Option<u32>)
    | Supply(data: seq<byte>)
    | Window(n: nat)
    | Tick
    | End
    | Stop

  function Called(t: TxState, c: Call): TxState
  {
    match c
    case Begin(name, size) => StartFile(t, name, size).tx
    case Supply(data) => SubmitFile(t, data).tx
    case Window(n) => SetStreamingWindow(t, n)
    case Tick => Timeout(t).tx
    case End => Finish(t).tx
    case Stop => Abort(t)
  }

  /** Neither wire bytes nor an event are on offer; file data may be asked for. */
  predicate Drained(t: TxState)
  {
    t.out == [] && t.event.None?
  }

  datatype Act = Submit(bytes: seq<byte>) | WireOut(n: nat) | Pop | Ask(call: Call)

  /** The byte brings an event. */
  predicate Brings(t: TxState, b: byte)
  {
    TakeByte(t.(event := None), b).tx.event.Some?
  }

  /** How many events are replaced while these bytes are taken. */
  function Replaced(t: TxState, bytes: seq<byte>): nat
    decreases |bytes|
  {
    if bytes == [] || t.Blocked() then 0
    else (if t.event.Some? && Brings(t, bytes[0]) then 1 else 0) + Replaced(TakeByte(t, bytes[0]).tx, bytes[1..])
  }

  function Seen(t: TxState): seq<SenderEvent>
  {
    if t.event.Some? then [t.event.value] else []
  }

  function Apply(t: Tape, a: Act): Tape
  {
    match a
    case Submit(bytes) => t.(tx := Feed(t.tx, bytes).tx, lost := t.lost + Replaced(t.tx, bytes))
    case WireOut(n) =>
      var s := t.tx.WireBytes();
      t.(tx := WireWritten(t.tx, n), wire := t.wire + s[..Min(n, |s|)])
    case Pop => t.(tx := PopEvent(t.tx), events := t.events + Seen(t.tx))
    case Ask(c) => t.(tx := Called(t.tx, c))
  }

  /** The bytes submitted are the ones the sender took, without an error, and calls
      are made with everything drained. */
  predicate Legal(t: Tape, a: Act)
  {
    (a.Submit? ==> Feed(t.tx, a.bytes).Fed?) && (a.Ask? ==> Drained(t.tx))
  }

  function Run(t: Tape, acts: seq<Act>): Tape
    decreases |acts|
  {
    if acts == [] then t else Run(Apply(t, acts[0]), acts[1..])
  }

  predicate AllLegal(t: Tape, acts: seq<Act>)
    decreases |acts|
  {
    acts != [] ==> Legal(t, acts[0]) && AllLegal(Apply(t, acts[0]), acts[1..])
  }

  /** The stream a schedule brings: bytes, and the calls between them. */
  datatype Item = Byte(b: byte) | Made(call: Call)

  function Bytes(s: seq<byte>): seq<Item>
  {
    if s == [] then [] else [Byte(s[0])] + Bytes(s[1..])
  }

  function Brought(a: Act): seq<Item>
  {
    match a
    case Submit(bytes) => Bytes(bytes)
    case Ask(c) => [Made(c)]
    case _ => []
  }

  function Taken(acts: seq<Act>): seq<Item>
    decreases |acts|
  {
    if acts == [] then [] else Brought(acts[0]) + Taken(acts[1..])
  }

  // ---------------------------------------------------------------------
  // Settling: drain everything
  // ---------------------------------------------------------------------

  function DrainWire(t: Tape): Tape
  {
    Apply(t, WireOut(|t.tx.WireBytes()|))
  }

  function Settle(t: Tape): Tape
  {
    DrainWire(Apply(t, Pop))
  }

  function Met(t: TxState, i: Item): TxState
  {
    match i
    case Byte(b) => TakeByte(t, b).tx
    case Made(c) => Called(t, c)
  }

  /** One byte or call at a time, everything drained after each: no event is lost. */
  function Canon(t: Tape, stream: seq<Item>): Tape
    decreases |stream|
  {
    if stream == [] then t else Canon(Settle(t.(tx := Met(t.tx, stream[0]))), stream[1..])
  }

  lemma {:induction false} CanonConcat(t: Tape, a: seq<Item>, b: seq<Item>)
    ensures Canon(t, a + b) == Canon(Canon(t, a), b)
    decreases |a|
  {
    hide Met, Settle;
    if a == [] {
      assert a + b == b;
    } else {
      assert (a + b)[1..] == a[1..] + b;
      CanonConcat(Settle(t.(tx := Met(t.tx, a[0]))), a[1..], b);
    }
  }

  lemma CanonOne(t: Tape, i: Item, rest: seq<Item>)
    ensures Canon(t, [i] + rest) == Canon(Settle(t.(tx := Met(t.tx, i))), rest)
  {
    hide Met, Settle;
    assert ([i] + rest)[1..] == rest;
  }

  lemma CanonNothing(t: Tape)
    ensures Canon(t, []) == t
  {
  }

  /** Two tapes of which the first may have lost events: all else is the same, and
      the events are as many fewer as were lost. */
  predicate Short(a: Tape, b: Tape, lost: int)
  {
    && a.tx == b.tx && a.wire == b.wire && |a.events| + lost == |b.events|
    && (lost == 0 ==> a.events == b.events)
  }

  lemma ShortSettle(a: Tape, b: Tape, lost: int)
    requires Short(a, b, lost)
    ensures Short(Settle(a), Settle(b), lost)
    ensures Settle(a).lost == a.lost
  {
    hide WireWritten;
  }

  lemma {:induction false} ShortCanon(a: Tape, b: Tape, lost: int, stream: seq<Item>)
    requires Short(a, b, lost)
    ensures Short(Canon(a, stream), Canon(b, stream), lost)
    ensures Canon(a, stream).lost == a.lost
    decreases |stream|
  {
    hide Met, Settle;
    if stream != [] {
      var x, y := a.(tx := Met(a.tx, stream[0])), b.(tx := Met(b.tx, stream[0]));
      ShortSettle(x, y, lost);
      ShortCanon(Settle(x), Settle(y), lost, stream[1..]);
    }
  }

  lemma ShortAdds(a: Tape, b: Tape, c: Tape, m: nat, n: nat)
    requires Short(a, b, m) && Short(b, c, n)
    ensures Short(a, c, m + n)
  {
  }

  // ---------------------------------------------------------------------
  // Draining early or late makes no difference
  // ---------------------------------------------------------------------

  lemma NoWireDrain(t: Tape, n: nat)
    requires Inv(t.tx) && t.tx.out == []
    ensures Apply(t, WireOut(n)) == t
  {
    hide DivCeil, Requested;
    NoMsgs();
    assert t.wire + [] == t.wire;
  }

  /** Some of the wire bytes, or all of them, are out. */
  lemma WireParts(t: TxState, n: nat)
    requires Inv(t)
    ensures
      var s, u := t.WireBytes(), WireWritten(t, n);
      if n >= |s| then u == t.(out := [], sent := 0) && u.WireBytes() == []
      else u == t.(sent := t.sent + n) && u.WireBytes() == s[n..]
  {
    hide WireOf, DivCeil, Requested;
    NoMsgs();
  }

  /** Any part of the wire bytes may go first. */
  lemma WireTwice(t: Tape, n: nat)
    requires Inv(t.tx)
    ensures DrainWire(Apply(t, WireOut(n))) == DrainWire(t)
  {
    hide Inv, WireWritten, TxState.WireBytes;
    var s := t.tx.WireBytes();
    var u := Apply(t, WireOut(n));
    WireParts(t.tx, n);
    WireParts(t.tx, |s|);
    WireWrittenInv(t.tx, n);
    WireParts(u.tx, |u.tx.WireBytes()|);
    assert s[..|s|] == s;
    if n >= |s| {
      assert u.wire + [] == u.wire;
    } else {
      assert s[..n] + s[n..] == s;
      assert (t.wire + s[..n]) + s[n..] == t.wire + s;
      assert s[n..][..|s| - n] == s[n..];
    }
  }

  lemma WireSettles(t: Tape, n: nat)
    requires Inv(t.tx)
    ensures Settle(Apply(t, WireOut(n))) == Settle(t)
  {
    hide Inv, WireOf;
    var f := Apply(t, Pop);
    PopEventInv(t.tx);
    PopFirst(t, n);
    WireTwice(f, n);
  }

  lemma PopFirst(t: Tape, n: nat)
    ensures Apply(Apply(t, WireOut(n)), Pop) == Apply(Apply(t, Pop), WireOut(n))
  {
    hide WireOf;
    assert PopEvent(t.tx).WireBytes() == t.tx.WireBytes();
  }

  lemma PopSettles(t: Tape)
    ensures Settle(Apply(t, Pop)) == Settle(t)
  {
    hide WireOf, WireWritten;
    var f := Apply(t, Pop);
    assert f.events + [] == f.events;
    assert Apply(f, Pop) == f;
  }

  /** With everything drained there is nothing to settle. */
  lemma DrainedSettled(t: Tape)
    requires Inv(t.tx) && Drained(t.tx)
    ensures Settle(t) == t
  {
    hide Inv, WireWritten, WireOf;
    assert t.events + [] == t.events;
    assert Apply(t, Pop) == t;
    NoWireDrain(t, |t.tx.WireBytes()|);
  }

  // ---------------------------------------------------------------------
  // A byte does not depend on the event still pending
  // ---------------------------------------------------------------------

  /** The same reply with an event pending before: the new one replaces it. */
  function Replacing(p: Reply, e: Option<SenderEvent>): Reply
  {
    var t := p.tx.(event := if p.tx.event.Some? then p.tx.event else e);
    if p.Done? then Done(t) else Refused(t, p.error)
  }

  lemma QueueReplaces(t: TxState, ms: seq<Msg>)
    ensures Queue(t, ms) == Replacing(Queue(t.(event := None), ms), t.event)
    ensures Queue(t, ms).tx.event == t.event
  {
  }

  lemma EndReplaces(t: TxState)
    ensures EndSession(t) == Replacing(EndSession(t.(event := None)), t.event)
    ensures OnZfin(t) == Replacing(OnZfin(t.(event := None)), t.event)
  {
    hide Queue;
    QueueReplaces(t, [Msg.Over]);
  }

  lemma ZskipReplaces(t: TxState)
    ensures Done(OnZskip(t)) == Replacing(Done(OnZskip(t.(event := None))), t.event)
    ensures Done(Abort(t)) == Replacing(Done(Abort(t.(event := None))), t.event)
    ensures Done(t) == Replacing(Done(t.(event := None)), t.event)
  {
  }

  lemma ZrinitReplaces(t: TxState, h: Header)
    ensures OnZrinit(t, h) == Replacing(OnZrinit(t.(event := None), h), t.event)
  {
    hide OnZrinit, Replacing;
    if t.phase == WaitReceiverInit {
      FirstReplaces(t, h);
    } else if t.phase == WaitFileDone {
      DoneReplaces(t, h);
    } else {
      OtherReplaces(t, h);
    }
  }

  lemma FirstReplaces(t: TxState, h: Header)
    requires t.phase == WaitReceiverInit
    ensures OnZrinit(t, h) == Replacing(OnZrinit(t.(event := None), h), t.event)
  {
    hide UpdateCaps, Queue, ZfileFrame;
    var c := UpdateCaps(t, h);
    CapsReplaces(t, h);
    QueueReplaces(c, ZfileFrame(c.fileName, c.fileSize));
    QueueReplaces(c.(phase := ReadyForFile), [Head(ZFIN_HEADER)]);
  }

  lemma DoneReplaces(t: TxState, h: Header)
    requires t.phase == WaitFileDone
    ensures OnZrinit(t, h) == Replacing(OnZrinit(t.(event := None), h), t.event)
  {
    hide UpdateCaps, Queue, ZfileFrame;
    CapsReplaces(t, h);
    QueueReplaces(UpdateCaps(t, h).(event := Some(FileCompleted), hasFile := false), [Head(ZFIN_HEADER)]);
  }

  lemma OtherReplaces(t: TxState, h: Header)
    requires t.phase != WaitReceiverInit && t.phase != WaitFileDone
    ensures OnZrinit(t, h) == Replacing(OnZrinit(t.(event := None), h), t.event)
  {
    hide UpdateCaps, EndSession;
    CapsReplaces(t, h);
    EndReplaces(UpdateCaps(t, h));
  }

  lemma CapsReplaces(t: TxState, h: Header)
    ensures
      var c := UpdateCaps(t, h);
      && UpdateCaps(t.(event := None), h) == c.(event := None)
      && c == t.(nonstop := c.nonstop, maxSubpacket := c.maxSubpacket, perAck := c.perAck)
  {
    hide MaxSubpacketFor, PerAckFor, BufferLenOf, OverlapOf;
  }

  lemma ZrposReplaces(t: TxState, offset: u32)
    ensures OnZrpos(t, offset) == Replacing(OnZrpos(t.(event := None), offset), t.event)
  {
    hide DivCeil, Header.WithCount;
  }

  lemma HeaderReplaces(t: TxState, h: Header)
    ensures HandleHeader(t, h) == Replacing(HandleHeader(t.(event := None), h), t.event)
  {
    hide OnZrinit, OnZrpos, OnZskip, OnZfin, Abort, Queue, Replacing, Header.Count;
    ZrinitReplaces(t, h);
    ZrposReplaces(t, h.Count());
    ZskipReplaces(t);
    EndReplaces(t);
    QueueReplaces(t, [Head(ZRQINIT_HEADER)]);
  }

  lemma ByteReplaces(t: TxState, b: byte)
    ensures TakeByte(t, b) == Replacing(TakeByte(t.(event := None), b), t.event)
  {
    hide ReadStep, HandleHeader;
    var s := ReadStep(t.reader, b);
    if s.outcome.Got? {
      HeaderReplaces(t.(reader := s.reader), s.outcome.header);
    }
  }

  /** A byte taken now settles as if everything had been drained before it, but for
      an event that it replaces. */
  lemma ByteSettles(t: Tape, b: byte)
    requires Inv(t.tx) && !t.tx.Blocked()
    ensures
      var n := if t.tx.event.Some? && Brings(t.tx, b) then 1 else 0;
      Short(Settle(t.(tx := TakeByte(t.tx, b).tx)), Settle(Settle(t).(tx := TakeByte(Settle(t).tx, b).tx)), n)
  {
    hide Inv, TakeByte, WireWritten, WireOf;
    var f := Apply(t, Pop);
    PopEventInv(t.tx);
    NoWireDrain(f, |f.tx.WireBytes()|);
    assert Settle(t) == f && f.tx == t.tx.(event := None);
    ByteReplaces(t.tx, b);
    var p, q := TakeByte(t.tx, b).tx, TakeByte(f.tx, b).tx;
    SeenReplaces(t, f, p, q);
  }

  lemma SeenReplaces(t: Tape, f: Tape, p: TxState, q: TxState)
    requires f == t.(tx := f.tx, events := t.events + Seen(t.tx))
    requires p == q.(event := if q.event.Some? then q.event else t.tx.event)
    ensures
      var n := if t.tx.event.Some? && q.event.Some? then 1 else 0;
      Short(Settle(t.(tx := p)), Settle(f.(tx := q)), n)
  {
    hide WireOf;
    assert PopEvent(p) == PopEvent(q);
    assert (t.events + Seen(t.tx)) + [] == t.events + Seen(t.tx);
  }

  /** A slice settles where its bytes do one by one, with the events it made the
      sender forget missing. */
  lemma {:induction false} SubmitSettles(t: Tape, bytes: seq<byte>)
    requires Inv(t.tx) && Feed(t.tx, bytes).Fed?
    ensures Short(Settle(Apply(t, Submit(bytes))), Canon(Settle(t), Bytes(bytes)), Replaced(t.tx, bytes))
    decreases |bytes|
  {
    hide TakeByte, Inv, Settle, Brings, TxState.Blocked;
    if bytes == [] {
      assert Apply(t, Submit(bytes)) == t;
      CanonNothing(Settle(t));
    } else {
      var b, rest := bytes[0], bytes[1..];
      var u := t.(tx := TakeByte(t.tx, b).tx);
      var n := if t.tx.event.Some? && Brings(t.tx, b) then 1 else 0;
      ByteSettles(t, b);
      TakeByteInv(t.tx, b);
      SubmitSettles(u, rest);
      CanonOne(Settle(t), Byte(b), Bytes(rest));
      var c := Settle(Settle(t).(tx := TakeByte(Settle(t).tx, b).tx));
      ShortCanon(Settle(u), c, n, Bytes(rest));
      LostApart(Apply(u, Submit(rest)), Apply(t, Submit(bytes)));
      ShortAdds(Settle(Apply(t, Submit(bytes))), Canon(Settle(u), Bytes(rest)), Canon(c, Bytes(rest)), Replaced(u.tx, rest), n);
    }
  }

  /** The count of lost events is nothing settling looks at. */
  lemma LostApart(a: Tape, b: Tape)
    requires a == b.(lost := a.lost)
    ensures Settle(a) == Settle(b).(lost := a.lost)
  {
    hide WireWritten, WireOf;
  }

  // ---------------------------------------------------------------------
  // Main results
  // ---------------------------------------------------------------------

  lemma CalledInv(t: TxState, c: Call)
    requires Inv(t)
    ensures Inv(Called(t, c))
  {
    hide Inv, StartFile, SubmitFile, SetStreamingWindow, Timeout, Finish, Abort;
    match c {
      case Begin(name, size) => StartFileInv(t, name, size);
      case Supply(data) => SubmitFileInv(t, data);
      case Window(n) => SetStreamingWindowInv(t, n);
      case Tick => TimeoutInv(t);
      case End => FinishInv(t);
      case Stop => AbortInv(t);
    }
  }

  lemma ApplyInv(t: Tape, a: Act)
    requires Inv(t.tx) && Legal(t, a)
    ensures Inv(Apply(t, a).tx)
  {
    hide Inv, Feed, WireWritten, PopEvent, Called, Replaced;
    match a {
      case Submit(bytes) => FeedInv(t.tx, bytes);
      case WireOut(n) => WireWrittenInv(t.tx, n);
      case Pop => PopEventInv(t.tx);
      case Ask(c) => CalledInv(t.tx, c);
    }
  }

  lemma ShortSelf(t: Tape)
    ensures Short(t, t, 0)
  {
  }

  lemma AskSettles(t: Tape, c: Call)
    requires Inv(t.tx) && Drained(t.tx)
    ensures Settle(Apply(t, Ask(c))) == Canon(Settle(t), [Made(c)])
  {
    hide Inv, Settle, Drained, Called, Canon;
    DrainedSettled(t);
    CanonOne(t, Made(c), []);
    CanonNothing(Settle(t.(tx := Called(t.tx, c))));
    assert [Made(c)] + [] == [Made(c)];
  }

  lemma ActSettles(t: Tape, a: Act)
    requires Inv(t.tx) && Legal(t, a)
    ensures Short(Settle(Apply(t, a)), Canon(Settle(t), Brought(a)), Apply(t, a).lost - t.lost)
  {
    hide Inv, Settle, Canon, Feed, Short, WireWritten, PopEvent, Called, Replaced;
    CanonNothing(Settle(t));
    ShortSelf(Settle(Apply(t, a)));
    match a {
      case Submit(bytes) => SubmitSettles(t, bytes);
      case WireOut(n) => WireSettles(t, n);
      case Pop => PopSettles(t);
      case Ask(c) => AskSettles(t, c);
    }
  }

  lemma LostGrows(t: Tape, a: Act)
    ensures Apply(t, a).lost >= t.lost
  {
  }

  /** Every legal schedule settles where the canonical run of its stream does, with
      as many events missing as were replaced on the way. */
  lemma {:induction false} RunIsCanon(t: Tape, acts: seq<Act>)
    requires Inv(t.tx) && AllLegal(t, acts)
    ensures Run(t, acts).lost >= t.lost
    ensures Short(Settle(Run(t, acts)), Canon(Settle(t), Taken(acts)), Run(t, acts).lost - t.lost)
    decreases |acts|
  {
    hide Inv, Settle, Apply, Canon, Legal, Brought, Short;
    if acts == [] {
      CanonNothing(Settle(t));
      ShortSelf(Settle(t));
    } else {
      var a := acts[0];
      var u := Apply(t, a);
      ApplyInv(t, a);
      LostGrows(t, a);
      RunIsCanon(u, acts[1..]);
      ActSettles(t, a);
      ShortCanon(Settle(u), Canon(Settle(t), Brought(a)), u.lost - t.lost, Taken(acts[1..]));
      CanonConcat(Settle(t), Brought(a), Taken(acts[1..]));
      ShortAdds(Settle(Run(t, acts)), Canon(Settle(u), Taken(acts[1..])), Canon(Settle(t), Taken(acts)),
                Run(t, acts).lost - u.lost, u.lost - t.lost);
    }
  }

  /** Two schedules over the same stream, with the same calls at the same places in
      it, but cut and drained differently, end with the same state and wire bytes;
      and with the same events if and only if they lost equally many, given that one
      of them lost none. */
  lemma ChunkIndependence(t: Tape, a: seq<Act>, b: seq<Act>)
    requires Inv(t.tx) && AllLegal(t, a) && AllLegal(t, b) && Taken(a) == Taken(b)
    ensures
      var x, y := Settle(Run(t, a)), Settle(Run(t, b));
      && x.tx == y.tx && x.wire == y.wire
      && |x.events| + Run(t, a).lost == |y.events| + Run(t, b).lost
      && (Run(t, b).lost == t.lost ==> (x.events == y.events <==> Run(t, a).lost == t.lost))
  {
    hide Inv, Settle, Run, AllLegal, Taken, Canon;
    RunIsCanon(t, a);
    RunIsCanon(t, b);
  }

  // ---------------------------------------------------------------------
  // An event that is lost
  // ---------------------------------------------------------------------

  /** The answer to the last ZEOF, and a receiver that then gives up. */
  function Answer(flags: Flags): seq<byte>
  {
    HeaderCore(Header(ZHEX, ZRINIT, flags))
  }

  const GIVE_UP: seq<byte> := HeaderCore(Header(ZHEX, ZABORT, [0, 0, 0, 0]))

  /** A sender that waits for the end of a file to be answered. */
  predicate Expecting(t: TxState)
  {
    Inv(t) && t.phase == WaitFileDone && t.out == [] && t.event.None? && !t.finishRequested && t.reader == FRESH
  }

  lemma AnswerFed(t: TxState, flags: Flags)
    requires Expecting(t)
    ensures
      var f := Feed(t, Answer(flags));
      && f.Fed? && f.tx.event == Some(FileCompleted) && f.tx.phase == ReadyForFile && f.tx.out == [] && f.tx.sent == 0
      && f.tx.request.None? && f.tx.reader == FRESH && Inv(f.tx)
  {
    hide Feed, HeaderCore, UpdateCaps, WireOf, DivCeil, Requested;
    SenderFrames.HeaderFed(t, Header(ZHEX, ZRINIT, flags));
    assert t.(reader := FRESH) == t;
    CapsReplaces(t, Header(ZHEX, ZRINIT, flags));
    FeedInv(t, Answer(flags));
  }

  lemma GiveUpFed(t: TxState)
    requires t.phase == ReadyForFile && t.out == [] && t.request.None? && t.reader == FRESH
    ensures Feed(t, GIVE_UP) == Fed.Fed(Abort(t))
  {
    hide Feed, HeaderCore, Header.Count;
    SenderFrames.HeaderFed(t, Header(ZHEX, ZABORT, [0, 0, 0, 0]));
    assert t.(reader := FRESH) == t;
  }

  /** It does happen: in one slice, the receiver's abort makes the sender forget that
      the file was complete; in two, with a look between them, both are seen. */
  lemma EventForgotten(t: Tape, flags: Flags)
    requires Expecting(t.tx)
    ensures
      var once, twice := [Submit(Answer(flags) + GIVE_UP)], [Submit(Answer(flags)), Pop, Submit(GIVE_UP)];
      && AllLegal(t, once) && AllLegal(t, twice) && Taken(once) == Taken(twice)
      && Settle(Run(t, once)).events == t.events + [Stopped]
      && Settle(Run(t, twice)).events == t.events + [FileCompleted, Stopped]
  {
    hide AllLegal, Taken, Settle, Run, Expecting, Answer;
    SeenOnce(t, flags);
    SeenTwice(t, flags);
  }

  lemma SeenOnce(t: Tape, flags: Flags)
    requires Expecting(t.tx)
    ensures
      var once := [Submit(Answer(flags) + GIVE_UP)];
      && AllLegal(t, once) && Taken(once) == Bytes(Answer(flags) + GIVE_UP)
      && Settle(Run(t, once)).events == t.events + [Stopped]
  {
    hide Feed, Inv, Replaced, Answer, Abort, AllLegal, Taken, Settle, Run, Bytes;
    AnswerFed(t.tx, flags);
    FeedConcat(t.tx, Answer(flags), GIVE_UP);
    GiveUpFed(Feed(t.tx, Answer(flags)).tx);
    Aborted(Feed(t.tx, Answer(flags)).tx);
    RunOnce(t, Answer(flags) + GIVE_UP);
    SettleEvents(Run(t, [Submit(Answer(flags) + GIVE_UP)]));
  }

  lemma SeenTwice(t: Tape, flags: Flags)
    requires Expecting(t.tx)
    ensures
      var twice := [Submit(Answer(flags)), Pop, Submit(GIVE_UP)];
      && AllLegal(t, twice) && Taken(twice) == Bytes(Answer(flags) + GIVE_UP)
      && Settle(Run(t, twice)).events == t.events + [FileCompleted, Stopped]
  {
    hide Feed, Inv, Replaced, Answer, Abort, AllLegal, Taken, Settle, Run, Bytes;
    AnswerFed(t.tx, flags);
    var m := Feed(t.tx, Answer(flags)).tx;
    GiveUpFed(PopEvent(m));
    Aborted(PopEvent(m));
    RunTwice(t, Answer(flags), GIVE_UP);
    SettleEvents(Run(t, [Submit(Answer(flags)), Pop, Submit(GIVE_UP)]));
    assert (t.events + [FileCompleted]) + [Stopped] == t.events + [FileCompleted, Stopped];
  }

  lemma Aborted(t: TxState)
    ensures Abort(t).event == Some(Stopped)
  {
  }

  lemma SettleEvents(t: Tape)
    ensures Settle(t).events == t.events + Seen(t.tx)
  {
    hide WireWritten, WireOf;
  }

  lemma RunOnce(t: Tape, a: seq<byte>)
    ensures Run(t, [Submit(a)]) == Apply(t, Submit(a)) && (AllLegal(t, [Submit(a)]) <==> Feed(t.tx, a).Fed?)
    ensures Taken([Submit(a)]) == Bytes(a)
  {
    hide Feed, Replaced, Bytes;
    assert [Submit(a)][1..] == [];
    assert Bytes(a) + [] == Bytes(a);
  }

  lemma RunTwice(t: Tape, a: seq<byte>, b: seq<byte>)
    requires Feed(t.tx, a).Fed? && Feed(PopEvent(Feed(t.tx, a).tx), b).Fed?
    ensures
      var acts := [Submit(a), Pop, Submit(b)];
      && AllLegal(t, acts) && Run(t, acts) == Apply(Apply(Apply(t, Submit(a)), Pop), Submit(b))
      && Taken(acts) == Bytes(a + b)
  {
    hide Feed, Replaced, Bytes, Apply;
    var acts := [Submit(a), Pop, Submit(b)];
    assert acts[1..] == [Pop, Submit(b)] && acts[1..][1..] == [Submit(b)];
    PopApplied(t, a);
    RunOnce(Apply(Apply(t, Submit(a)), Pop), b);
    BytesConcat(a, b);
  }

  lemma PopApplied(t: Tape, a: seq<byte>)
    ensures Apply(Apply(t, Submit(a)), Pop).tx == PopEvent(Feed(t.tx, a).tx)
  {
    hide Feed, Replaced;
  }

  lemma {:induction false} BytesConcat(a: seq<byte>, b: seq<byte>)
    ensures Bytes(a + b) == Bytes(a) + Bytes(b)
    decreases |a|
  {
    if a == [] {
      assert a + b == b;
    } else {
      assert (a + b)[1..] == a[1..] + b;
      BytesConcat(a[1..], b);
    }
  }
}
