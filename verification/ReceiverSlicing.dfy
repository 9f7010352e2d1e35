/** The slicing of the wire does not matter: however the caller cuts the stream,
    and whenever it drains what is on offer, the receiver ends in the same state
    and has put out the same wire bytes, file bytes and events. What else the caller
    may ask of the receiver, it asks with everything drained, as when it is told
    that no work is pending. */
module ReceiverSlicing {
  import opened Primitives
  import opened HeaderCodec
  import opened HeaderReading
  import opened Subpackets
  import opened FileMetadata
  import opened ReceiverSpec
  import opened ReceiverInvariant
  import ReceiverRuns

  /** A receiver and everything its caller has drained from it. */
  datatype Tape = Tape(rx: RxState, wire: seq<byte>, file: seq<byte>, events: seq<Event>)

  /** What a caller asks of the receiver beyond taking bytes and draining. */
  datatype Call = Tick | Accept(offset: u32) | Decline | Manual(on: bool) | Stop

  function Called(r: RxState, c: Call): RxState
  {
    match c
    case Tick => Timeout(r).rx
    case Accept(offset) => AcceptFileAt(r, offset).rx
    case Decline => SkipFile(r).rx
    case Manual(on) => r.(manual := on)
    case Stop => Abort(r).rx
  }

  /** Nothing is on offer. */
  predicate Drained(r: RxState)
  {
    r.out.None? && r.FileBytes() == [] && r.events == []
  }

  /** What a caller does between two looks at the receiver. */
  datatype Act =
    | Submit(bytes: seq<byte>)
    | WireOut(n: nat)
    | FileOut(n: nat)
    | Pop
    | Ask(call: Call)

  function Apply(t: Tape, a: Act): Tape
  {
    match a
    case Submit(bytes) => t.(rx := Feed(t.rx, bytes).rx)
    case WireOut(n) =>
      var s := t.rx.WireBytes();
      t.(rx := WireWritten(t.rx, n), wire := t.wire + s[..Min(n, |s|)])
    case FileOut(n) =>
      var s := t.rx.FileBytes();
      t.(rx := FileWritten(t.rx, n).rx, file := t.file + s[..Min(n, |s|)])
    case Pop =>
      t.(rx := PopEvent(t.rx), events := t.events + (if t.rx.events == [] then [] else t.rx.events[..1]))
    case Ask(c) => t.(rx := Called(t.rx, c))
  }

  /** The bytes submitted are the ones the receiver took, without an error, and
      calls are made with everything drained. */
  predicate Legal(t: Tape, a: Act)
  {
    (a.Submit? ==> Feed(t.rx, a.bytes).Fed?) && (a.Ask? ==> Drained(t.rx))
  }

  function Run(t: Tape, acts: seq<Act>): Tape
    decreases |acts|
  {
    if acts == [] then t else Run(Apply(t, acts[0]), acts[1..])
  }

  predicate AllLegal(t: Tape, acts: seq<Act>)
    decreases |acts|
  {
    acts != [] ==> Legal(t, acts[0]) && AllLegal(Apply(t, acts[0]), acts[1..])
  }

  /** The stream a schedule brings: bytes, and the calls between them. */
  datatype Item = Byte(b: byte) | Made(call: Call)

  function Bytes(s: seq<byte>): seq<Item>
  {
    if s == [] then [] else [Byte(s[0])] + Bytes(s[1..])
  }

  function Brought(a: Act): seq<Item>
  {
    match a
    case Submit(bytes) => Bytes(bytes)
    case Ask(c) => [Made(c)]
    case _ => []
  }

  function Taken(acts: seq<Act>): seq<Item>
    decreases |acts|
  {
    if acts == [] then [] else Brought(acts[0]) + Taken(acts[1..])
  }

  // ---------------------------------------------------------------------
  // Settling: drain everything
  // ---------------------------------------------------------------------

  function Flush(t: Tape): Tape
  {
    t.(rx := t.rx.(events := []), events := t.events + t.rx.events)
  }

  function DrainFile(t: Tape): Tape
  {
    Apply(t, FileOut(|t.rx.FileBytes()|))
  }

  function DrainWire(t: Tape): Tape
  {
    Apply(t, WireOut(|t.rx.WireBytes()|))
  }

  function Settle(t: Tape): Tape
  {
    DrainWire(DrainFile(Flush(t)))
  }

  function Met(r: RxState, i: Item): RxState
  {
    match i
    case Byte(b) => TakeByte(r, b).rx
    case Made(c) => Called(r, c)
  }

  /** One byte or call at a time, everything drained after each. */
  function Canon(t: Tape, stream: seq<Item>): Tape
    decreases |stream|
  {
    if stream == [] then t else Canon(Settle(t.(rx := Met(t.rx, stream[0]))), stream[1..])
  }

  lemma {:induction false} CanonConcat(t: Tape, a: seq<Item>, b: seq<Item>)
    ensures Canon(t, a + b) == Canon(Canon(t, a), b)
    decreases |a|
  {
    hide Met, Settle;
    if a == [] {
      assert a + b == b;
    } else {
      assert (a + b)[1..] == a[1..] + b;
      CanonConcat(Settle(t.(rx := Met(t.rx, a[0]))), a[1..], b);
    }
  }

  lemma CanonOne(t: Tape, i: Item, rest: seq<Item>)
    ensures Canon(t, [i] + rest) == Canon(Settle(t.(rx := Met(t.rx, i))), rest)
  {
    hide Met, Settle;
    assert ([i] + rest)[1..] == rest;
  }

  // ---------------------------------------------------------------------
  // Draining early or late makes no difference
  // ---------------------------------------------------------------------

  /** Nothing on offer for the file: draining it is no change. */
  lemma NoFileDrain(t: Tape, n: nat)
    requires Inv(t.rx) && t.rx.FileBytes() == []
    ensures Apply(t, FileOut(n)) == t
  {
    hide EncHeader, Checked, FinishSubpacket;
    var r := t.rx;
    assert t.file + [] == t.file;
    if r.sub.Writing? {
      assert r.written == |r.buf|;
      FinishRefused(r, r.sub.kind);
      assert r.(written := r.written + 0) == r;
    }
  }

  lemma NoWireDrain(t: Tape, n: nat)
    requires Inv(t.rx) && t.rx.out.None?
    ensures Apply(t, WireOut(n)) == t
  {
    hide EncHeader, Checked;
    assert t.wire + [] == t.wire;
  }

  lemma FlushInv(t: Tape)
    requires Inv(t.rx)
    ensures Inv(Flush(t).rx)
  {
    hide EncHeader, Checked;
    if t.rx.InSubpacket() {
      CheckedSame(t.rx, Flush(t).rx);
    }
  }

  /** Any part of the wire bytes may go first. */
  lemma WireTwice(t: Tape, n: nat)
    requires Inv(t.rx)
    ensures DrainWire(Apply(t, WireOut(n))) == DrainWire(t)
  {
    hide EncHeader, Checked;
    var s := t.rx.WireBytes();
    var u := Apply(t, WireOut(n));
    if n >= |s| {
      assert u.rx.WireBytes() == [];
      assert s[..|s|] == s && u.wire + [] == u.wire;
    } else {
      assert u.rx.WireBytes() == s[n..];
      assert s[..n] + s[n..] == s;
      assert (t.wire + s[..n]) + s[n..] == t.wire + s;
      assert s[n..][..|s| - n] == s[n..] && s[..|s|] == s;
    }
  }

  /** Any part of the file bytes may go first. */
  lemma FileTwice(t: Tape, n: nat)
    requires Inv(t.rx)
    ensures DrainFile(Apply(t, FileOut(n))) == DrainFile(t)
  {
    hide EncHeader, Inv, FileWritten;
    var s := t.rx.FileBytes();
    var u := Apply(t, FileOut(n));
    FileWrittenInv(t.rx, n);
    if s == [] {
      NoFileDrain(t, n);
    } else if n >= |s| {
      FileDrained(t.rx, n);
      NoFileDrain(u, |u.rx.FileBytes()|);
      assert s[..|s|] == s;
    } else {
      FileInPart(t.rx, n);
      assert s[..n] + s[n..] == s;
      assert (t.file + s[..n]) + s[n..] == t.file + s;
      assert s[n..][..|s| - n] == s[n..] && s[..|s|] == s;
    }
  }

  lemma FileInPart(r: RxState, n: nat)
    requires Inv(r) && n < |r.FileBytes()|
    ensures
      var u := FileWritten(r, n).rx;
      && u.FileBytes() == r.FileBytes()[n..]
      && FileWritten(u, |r.FileBytes()| - n).rx == FileWritten(r, |r.FileBytes()|).rx
  {
    hide EncHeader, Checked, FinishSubpacket;
    var u := r.(written := r.written + n);
    assert FileWritten(r, n) == Done(u);
    assert u.FileBytes() == r.FileBytes()[n..];
  }

  lemma FileDrained(r: RxState, n: nat)
    requires Inv(r) && n >= |r.FileBytes()| && r.sub.Writing?
    ensures FileWritten(r, n).rx.FileBytes() == []
    ensures FileWritten(r, n).rx == FileWritten(r, |r.FileBytes()|).rx
  {
    hide EncHeader, Checked, FinishSubpacket;
    var w := r.(written := |r.buf|);
    FinishLeaves(w, w.sub.kind);
    if r.count + |r.buf| > MAX_COUNT {
      FinishRefused(w, w.sub.kind);
    } else {
      FinishSubpacketInv(w, w.sub.kind);
    }
  }

  lemma FinishLeaves(r: RxState, k: SubpacketType)
    ensures FinishSubpacket(r, k).Done? ==> !FinishSubpacket(r, k).rx.sub.Writing?
  {
    hide LeBytes;
  }

  /** The part of settling that works on a tape without events. */
  lemma WireSettles(t: Tape, n: nat)
    requires Inv(t.rx)
    ensures Settle(Apply(t, WireOut(n))) == Settle(t)
  {
    hide EncHeader, Inv, FileWritten, WireWritten;
    var f := Flush(t);
    FlushInv(t);
    WireWrittenEvents(t.rx, n);
    var g := Apply(f, WireOut(n));
    assert Flush(Apply(t, WireOut(n))) == g;
    WireWrittenInv(f.rx, n);
    if f.rx.out.None? {
      NoWireDrain(f, n);
    } else {
      NothingOffered(f.rx, n);
      NoFileDrain(f, |f.rx.FileBytes()|);
      NoFileDrain(g, |g.rx.FileBytes()|);
      WireTwice(f, n);
    }
  }

  lemma WireWrittenEvents(r: RxState, n: nat)
    ensures WireWritten(r.(events := []), n) == WireWritten(r, n).(events := [])
    ensures WireWritten(r, n).events == r.events
    ensures r.(events := []).WireBytes() == r.WireBytes()
  {
    hide EncHeader;
  }

  /** A header on its way out leaves no room for file data on offer. */
  lemma NothingOffered(r: RxState, n: nat)
    requires Inv(r) && r.out.Some?
    ensures r.FileBytes() == [] && WireWritten(r, n).FileBytes() == []
  {
    hide EncHeader, Checked;
    if r.sub.Writing? {
      assert r.count + |r.buf| > MAX_COUNT;
    }
  }

  lemma FileSettles(t: Tape, n: nat)
    requires Inv(t.rx)
    ensures Settle(Apply(t, FileOut(n))) == Settle(t)
  {
    hide EncHeader, Inv, FileWritten, WireWritten;
    var f := Flush(t);
    FlushInv(t);
    FileWrittenEvents(t.rx, n);
    assert Flush(Apply(t, FileOut(n))) == Apply(f, FileOut(n));
    FileTwice(f, n);
  }

  lemma FileWrittenEvents(r: RxState, n: nat)
    ensures FileWritten(r.(events := []), n).rx == FileWritten(r, n).rx.(events := [])
    ensures FileWritten(r, n).rx.events == r.events
    ensures r.(events := []).FileBytes() == r.FileBytes()
  {
    hide EncHeader, FinishSubpacket;
    if r.sub.Writing? {
      FinishEvents(r.(written := r.written + Min(n, |r.FileBytes()|)), r.sub.kind);
    }
  }

  lemma FinishEvents(r: RxState, k: SubpacketType)
    ensures FinishSubpacket(r.(events := []), k).rx == FinishSubpacket(r, k).rx.(events := [])
    ensures FinishSubpacket(r, k).rx.events == r.events
  {
    hide FinishSubpacket;
    var z := r.(events := []);
    assert r.events + [] == r.events;
    assert Led(z, r.events) == r;
    FinishBehind(z, k, r.events);
    FinishQuiet(z, k);
  }

  lemma FinishQuiet(r: RxState, k: SubpacketType)
    ensures FinishSubpacket(r, k).rx.events == r.events
  {
    hide LeBytes;
  }

  lemma PopSettles(t: Tape)
    ensures Settle(Apply(t, Pop)) == Settle(t)
  {
    hide EncHeader, FileWritten, WireWritten;
    var e := t.rx.events;
    if e != [] {
      assert (t.events + e[..1]) + e[1..] == t.events + e by {
        assert e[..1] + e[1..] == e;
      }
    } else {
      assert t.events + [] == t.events;
    }
    assert Flush(Apply(t, Pop)) == Flush(t);
  }

  // ---------------------------------------------------------------------
  // A byte does not depend on the events still queued
  // ---------------------------------------------------------------------

  /** The same reply with more events in front of the queue. */
  function Behind(p: Reply, ev: seq<Event>): Reply
  {
    var r := p.rx.(events := ev + p.rx.events);
    if p.Done? then Done(r) else Refused(r, p.error)
  }

  function Led(r: RxState, ev: seq<Event>): RxState
  {
    r.(events := ev + r.events)
  }

  lemma QueueBehind(r: RxState, h: Header, ev: seq<Event>)
    ensures Queue(Led(r, ev), h) == Behind(Queue(r, h), ev)
  {
  }

  lemma PushBehind(r: RxState, e: Event, ev: seq<Event>)
    requires |ev| + |r.events| < EVENT_QUEUE_CAP
    ensures PushEvent(Led(r, ev), e) == Behind(PushEvent(r, e), ev)
  {
    assert (ev + r.events) + [e] == ev + (r.events + [e]);
  }

  lemma LedFields(r: RxState, ev: seq<Event>)
    ensures
      var t := Led(r, ev);
      && t.phase == r.phase && t.active == r.active && t.count == r.count && t.sub == r.sub
      && t.bufferLen == r.bufferLen && t.overlapped == r.overlapped
      && t.(phase := SessionEnd) == Led(r.(phase := SessionEnd), ev)
      && Done(t) == Behind(Done(r), ev)
  {
  }

  lemma HeaderBehind(r: RxState, h: Header, ev: seq<Event>)
    requires |ev| + |r.events| < EVENT_QUEUE_CAP
    ensures HandleHeader(Led(r, ev), h) == Behind(HandleHeader(r, h), ev)
  {
    hide Queue, PushEvent, OnZsinit, OnZfile, OnZdata, OnZeof, OnZfin, ZrinitHeader, Led, Behind;
    LedFields(r, ev);
    LedFields(OnZsinit(r, h), ev);
    LedFields(OnZfile(r, h), ev);
    QueueBehind(r, ZrinitHeader(r.bufferLen, r.overlapped), ev);
    PushBehind(r.(phase := SessionEnd), Aborted, ev);
    DataHeadersBehind(r, h, ev);
    ClosingBehind(r, ev);
  }

  lemma DataHeadersBehind(r: RxState, h: Header, ev: seq<Event>)
    ensures OnZsinit(Led(r, ev), h) == Led(OnZsinit(r, h), ev)
    ensures OnZfile(Led(r, ev), h) == Led(OnZfile(r, h), ev)
    ensures OnZdata(Led(r, ev), h) == Behind(OnZdata(r, h), ev)
  {
    hide LeBytes, FromLe, Queue;
    QueueBehind(r, ZRPOS_HEADER.WithCount(r.count), ev);
  }

  lemma ClosingBehind(r: RxState, ev: seq<Event>)
    requires |ev| + |r.events| < EVENT_QUEUE_CAP
    ensures OnZeof(Led(r, ev)) == Behind(OnZeof(r), ev)
    ensures OnZfin(Led(r, ev)) == Behind(OnZfin(r), ev)
  {
    hide ZrinitHeader, PushEvent;
    var q := r.(out := Some(ZrinitHeader(r.bufferLen, r.overlapped)), sent := 0);
    PushBehind(q.(phase := FileBegin, active := false), FileComplete, ev);
    var z := r.(out := Some(ZFIN_HEADER), sent := 0);
    PushBehind(z.(phase := SessionEnd), SessionComplete, ev);
  }

  lemma FinishBehind(r: RxState, k: SubpacketType, ev: seq<Event>)
    ensures FinishSubpacket(Led(r, ev), k) == Behind(FinishSubpacket(r, k), ev)
  {
    hide LeBytes;
  }

  lemma RecoverBehind(r: RxState, e: Error, ev: seq<Event>)
    ensures Recover(Led(r, ev), e) == Behind(Recover(r, e), ev)
  {
    hide LeBytes;
  }

  lemma ParseBehind(r: RxState, ev: seq<Event>)
    ensures ParseZfile(Led(r, ev)) == Behind(ParseZfile(r), ev)
  {
    hide ParseInfo, Field;
  }

  lemma StartBehind(r: RxState, ev: seq<Event>)
    requires |ev| + |r.events| < EVENT_QUEUE_CAP
    ensures StartFile(Led(r, ev)) == Behind(StartFile(r), ev)
  {
    hide ParseZfile, PushEvent, LeBytes;
    ParseBehind(r, ev);
    ParseZfileShape(r);
    if ParseZfile(r).Done? {
      var c := ParseZfile(r).rx.Cleared().(sub := Resting);
      PushBehind(c.(phase := FileAcceptPending), FileStart, ev);
      var q := c.(out := Some(ZRPOS_HEADER.WithCount(0)), sent := 0);
      PushBehind(q.(phase := FileBegin, active := true), FileStart, ev);
    }
  }

  lemma CompleteBehind(r: RxState, k: SubpacketType, ev: seq<Event>)
    requires |ev| + |r.events| < EVENT_QUEUE_CAP
    ensures CompleteSubpacket(Led(r, ev), k) == Behind(CompleteSubpacket(r, k), ev)
  {
    hide StartFile, FinishSubpacket, Queue;
    StartBehind(r, ev);
    QueueBehind(r.Cleared(), ZACK_HEADER, ev);
    FinishBehind(r.(sub := Writing(k), written := 0), k, ev);
  }

  lemma JudgedBehind(r: RxState, k: SubpacketType, v: Verdict, ev: seq<Event>)
    requires |ev| + |r.events| < EVENT_QUEUE_CAP
    ensures Judged(Led(r, ev), k, v) == Behind(Judged(r, k, v), ev)
  {
    hide CompleteSubpacket, Recover;
    CompleteBehind(r, k, ev);
    if v.Bad? {
      RecoverBehind(r, v.error, ev);
    }
  }

  lemma SubpacketByteBehind(r: RxState, b: byte, ev: seq<Event>)
    requires |ev| + |r.events| < EVENT_QUEUE_CAP
    ensures TakeSubpacketByte(Led(r, ev), b) == Behind(TakeSubpacketByte(r, b), ev)
  {
    hide Judged, CrcStep, TakePlain, TakeFollower;
    DataBehind(r.(sub := Reading), b, ev);
    DataBehind(r, b, ev);
    DataBehind(r.(escapePending := false), b, ev);
    if r.sub.Trailer? {
      var s := CrcStep(r.crc, r.encoding, b);
      JudgedBehind(r.(crc := s.crc), r.sub.kind, s.verdict, ev);
    }
  }

  lemma DataBehind(r: RxState, b: byte, ev: seq<Event>)
    ensures TakePlain(Led(r, ev), b) == Behind(TakePlain(r, b), ev)
    ensures TakeFollower(Led(r, ev), b) == Behind(TakeFollower(r, b), ev)
  {
    hide CrcState.Updated;
  }

  lemma ByteBehind(r: RxState, b: byte, ev: seq<Event>)
    requires |ev| + |r.events| < EVENT_QUEUE_CAP
    ensures TakeByte(Led(r, ev), b) == Behind(TakeByte(r, b), ev)
  {
    hide HandleHeader, ReadStep, TakeSubpacketByte, Queue;
    if r.InSubpacket() {
      SubpacketByteBehind(r, b, ev);
    } else {
      var s := ReadStep(r.reader, b);
      var t := r.(reader := s.reader);
      QueueBehind(t, ZNAK_HEADER, ev);
      if s.outcome.Got? {
        HeaderBehind(t, s.outcome.header, ev);
      }
    }
  }

  // ---------------------------------------------------------------------
  // Main result
  // ---------------------------------------------------------------------

  /** A byte taken now settles as if everything had been drained before it. */
  lemma ByteSettles(t: Tape, b: byte)
    requires Inv(t.rx) && t.rx.CanRead()
    ensures Settle(t).rx.CanRead()
    ensures Settle(t.(rx := TakeByte(t.rx, b).rx)) == Settle(Settle(t).(rx := TakeByte(Settle(t).rx, b).rx))
  {
    hide EncHeader, TakeByte, Inv, FileWritten, WireWritten;
    var f := Flush(t);
    FlushInv(t);
    NoFileDrain(f, |f.rx.FileBytes()|);
    NoWireDrain(f, |f.rx.WireBytes()|);
    assert Settle(t) == f;
    ByteBehind(f.rx, b, t.rx.events);
    assert t.rx.events + [] == t.rx.events;
    assert Led(f.rx, t.rx.events) == t.rx;
    var p, q := TakeByte(t.rx, b).rx, TakeByte(f.rx, b).rx;
    assert p == q.(events := t.rx.events + q.events);
    assert t.events + (t.rx.events + q.events) == (t.events + t.rx.events) + q.events;
    assert Flush(t.(rx := p)) == Flush(f.(rx := q));
  }

  lemma {:induction false} SubmitSettles(t: Tape, bytes: seq<byte>)
    requires Inv(t.rx) && Feed(t.rx, bytes).Fed?
    ensures Settle(Apply(t, Submit(bytes))) == Canon(Settle(t), Bytes(bytes))
    decreases |bytes|
  {
    hide TakeByte, Inv, Settle, RxState.CanRead;
    if bytes == [] {
      assert Apply(t, Submit(bytes)) == t;
    } else {
      CanonOne(Settle(t), Byte(bytes[0]), Bytes(bytes[1..]));
      var u := t.(rx := TakeByte(t.rx, bytes[0]).rx);
      ByteSettles(t, bytes[0]);
      LiveByte(t.rx, bytes[0]);
      SubmitSettles(u, bytes[1..]);
      assert Apply(t, Submit(bytes)) == Apply(u, Submit(bytes[1..]));
    }
  }

  lemma LiveByte(r: RxState, b: byte)
    requires Inv(r) && r.CanRead() && TakeByte(r, b).Done?
    ensures Inv(TakeByte(r, b).rx)
  {
    hide EncHeader, TakeByte, Inv;
    TakeByteInv(r, b);
  }

  lemma ApplyInv(t: Tape, a: Act)
    requires Inv(t.rx) && Legal(t, a)
    ensures Inv(Apply(t, a).rx)
  {
    hide Inv, Feed, WireWritten, FileWritten, PopEvent, Spent;
    match a {
      case Submit(bytes) => FeedInv(t.rx, bytes);
      case WireOut(n) => WireWrittenInv(t.rx, n);
      case FileOut(n) => FileWrittenInv(t.rx, n);
      case Pop => PopEventInv(t.rx);
      case Ask(c) => CalledInv(t.rx, c);
    }
  }

  lemma CalledInv(r: RxState, c: Call)
    requires Inv(r)
    ensures Inv(Called(r, c))
  {
    hide Inv, Timeout, AcceptFileAt, SkipFile, Abort;
    match c {
      case Tick => TimeoutInv(r);
      case Accept(offset) => AcceptFileAtInv(r, offset);
      case Decline => SkipFileInv(r);
      case Manual(on) => ReceiverRuns.ManualInv(r, on);
      case Stop => AbortInv(r);
    }
  }

  /** With everything drained there is nothing to settle. */
  lemma DrainedSettled(t: Tape)
    requires Inv(t.rx) && Drained(t.rx)
    ensures Settle(t) == t
  {
    hide Inv, FileWritten, WireWritten, EncHeader, Apply;
    assert t.events + [] == t.events;
    assert Flush(t) == t;
    NoFileDrain(t, |t.rx.FileBytes()|);
    NoWireDrain(t, |t.rx.WireBytes()|);
  }

  lemma AskSettles(t: Tape, c: Call)
    requires Inv(t.rx) && Drained(t.rx)
    ensures Settle(Apply(t, Ask(c))) == Canon(Settle(t), [Made(c)])
  {
    hide Inv, Settle, Drained, Called, Canon;
    DrainedSettled(t);
    CanonOne(t, Made(c), []);
    CanonNothing(Settle(t.(rx := Called(t.rx, c))));
    assert [Made(c)] + [] == [Made(c)];
  }

  /** Every legal schedule settles where the canonical run of its stream does. */
  lemma {:induction false} RunIsCanon(t: Tape, acts: seq<Act>)
    requires Inv(t.rx) && AllLegal(t, acts)
    ensures Settle(Run(t, acts)) == Canon(Settle(t), Taken(acts))
    decreases |acts|
  {
    hide Inv, Settle, Apply, Canon, Legal, Brought;
    if acts == [] {
      CanonNothing(Settle(t));
    } else {
      var a := acts[0];
      ApplyInv(t, a);
      RunIsCanon(Apply(t, a), acts[1..]);
      ActSettles(t, a);
      CanonConcat(Settle(t), Brought(a), Taken(acts[1..]));
    }
  }

  lemma CanonNothing(t: Tape)
    ensures Canon(t, []) == t
  {
  }

  lemma ActSettles(t: Tape, a: Act)
    requires Inv(t.rx) && Legal(t, a)
    ensures Settle(Apply(t, a)) == Canon(Settle(t), Brought(a))
  {
    hide Inv, Settle, Apply, Canon, Feed;
    CanonNothing(Settle(t));
    match a {
      case Submit(bytes) => SubmitSettles(t, bytes);
      case WireOut(n) => WireSettles(t, n);
      case FileOut(n) => FileSettles(t, n);
      case Pop => PopSettles(t);
      case Ask(c) => AskSettles(t, c);
    }
  }

  /** Chunk independence: two schedules over the same stream, with the same calls at
      the same places in it, but cut and drained differently, end with the same
      state, wire bytes, file bytes and events once both are drained. */
  lemma ChunkIndependence(t: Tape, a: seq<Act>, b: seq<Act>)
    requires Inv(t.rx) && AllLegal(t, a) && AllLegal(t, b) && Taken(a) == Taken(b)
    ensures Settle(Run(t, a)) == Settle(Run(t, b))
  {
    hide Inv, Settle, Run, AllLegal, Taken, Canon;
    RunIsCanon(t, a);
    RunIsCanon(t, b);
  }
}
