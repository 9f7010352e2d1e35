/** Two properties one would like the receiver to have and that it does not have:
    runs from the start, over real bytes, on which they fail. */
module ReceiverEdges {
  import opened Primitives
  import opened HeaderCodec
  import opened HeaderReading
  import opened Subpackets
  import opened FileMetadata
  import opened ReceiverSpec
  import opened ReceiverInvariant
  import opened ReceiverFrames
  import opened ReceiverRuns
  import opened ReceiverCompletions
  import Protocol
  import Deliveries = ProtocolDeliveries

  // ---------------------------------------------------------------------
  // Runs in pieces
  // ---------------------------------------------------------------------

  lemma {:induction false} RunsJoin(l: Log, a: seq<Op>, b: seq<Op>)
    ensures Steps(l, a + b) == Steps(Steps(l, a), b)
    ensures History(l, a + b) == History(l, a) + History(Steps(l, a), b)
    decreases |b|
  {
    hide Step, Pushed;
    if b == [] {
      assert a + b == a;
      assert History(l, a) + [] == History(l, a);
    } else {
      assert (a + b)[..|a + b| - 1] == a + b[..|b| - 1];
      RunsJoin(l, a, b[..|b| - 1]);
    }
  }

  lemma RunOne(l: Log, op: Op)
    ensures Steps(l, [op]) == Step(l, op) && History(l, [op]) == Pushed(l.rx.events, Step(l, op).rx.events)
  {
    hide Step, Pushed;
    assert [op][..0] == [];
    assert Steps(l, []) == l;
    assert History(l, []) == [];
  }

  /** Wire bytes, offered one by one. */
  function Takes(wire: seq<byte>): seq<Op>
  {
    if wire == [] then [] else Takes(wire[..|wire| - 1]) + [Take(wire[|wire| - 1])]
  }

  /** The events of a byte come behind those already queued. */
  lemma ByteAppends(r: RxState, b: byte)
    ensures r.events <= TakeByte(r, b).rx.events
  {
    hide ReadStep, TakeSubpacketByte, HandleHeader;
    var s := ReadStep(r.reader, b);
    if r.InSubpacket() {
      InsideAppends(r, b);
    } else if s.outcome.Got? {
      HeaderAppends(r.(reader := s.reader), s.outcome.header);
    }
  }

  lemma HeaderAppends(r: RxState, h: Header)
    ensures r.events <= HandleHeader(r, h).rx.events
  {
    hide OnZsinit, OnZfile, OnZdata, OnZeof, OnZfin, ZrinitHeader, Header.Count;
    AnswersAppend(r, h);
  }

  lemma AnswersAppend(r: RxState, h: Header)
    ensures OnZsinit(r, h).events == OnZfile(r, h).events == OnZdata(r, h).rx.events == r.events
    ensures r.events <= OnZeof(r).rx.events && r.events <= OnZfin(r).rx.events
  {
    hide Header.WithCount, Header.Count, ZrinitHeader;
  }

  lemma InsideAppends(r: RxState, b: byte)
    ensures r.events <= TakeSubpacketByte(r, b).rx.events
  {
    hide CrcStep, CrcState.Updated, Judged;
    if r.sub.Trailer? {
      var s := CrcStep(r.crc, r.encoding, b);
      JudgedStarts(r.(crc := s.crc), r.sub.kind, s.verdict);
    }
  }

  lemma NotSpent(r: RxState)
    requires Inv(r)
    ensures !Spent(r)
  {
    hide EncHeader, CrcAfter;
  }

  /** Bytes taken whole, seen as a run: the receiver ends where they lead, and what
      is reported on the way is what is queued at the end. */
  lemma {:induction false} TakesFed(l: Log, wire: seq<byte>)
    requires Inv(l.rx) && Feed(l.rx, wire).Fed?
    ensures Steps(l, Takes(wire)).rx == Feed(l.rx, wire).rx
    ensures Steps(l, Takes(wire)).rx.events == l.rx.events + History(l, Takes(wire))
    decreases |wire|
  {
    hide Inv, TakeByte, Feed, Spent, RxState.CanRead;
    if wire == [] {
      FeedNothing(l.rx);
      assert Takes([]) == [] && l.rx.events + [] == l.rx.events;
    } else {
      var head, b := wire[..|wire| - 1], wire[|wire| - 1];
      assert wire == head + [b];
      if !Feed(l.rx, head).Fed? {
        UnfedPrefix(l.rx, head, [b]);
      }
      TakesFed(l, head);
      FeedConcat(l.rx, head, [b]);
      FeedInv(l.rx, head);
      LastByte(l, Takes(head), b);
    }
  }

  lemma LastByte(l: Log, ops: seq<Op>, b: byte)
    requires Inv(Steps(l, ops).rx) && Feed(Steps(l, ops).rx, [b]).Fed?
    requires Steps(l, ops).rx.events == l.rx.events + History(l, ops)
    ensures
      var run := ops + [Take(b)];
      && Steps(l, run).rx == Feed(Steps(l, ops).rx, [b]).rx
      && Steps(l, run).rx.events == l.rx.events + History(l, run)
  {
    hide Inv, Feed, TakeByte, Step, Steps, History, Pushed;
    var m := Steps(l, ops);
    OneTaken(m, b);
    RunsJoin(l, ops, [Take(b)]);
    RunOne(m, Take(b));
    ByteAppends(m.rx, b);
    PushedRest(m.rx.events, TakeByte(m.rx, b).rx.events);
  }

  lemma OneTaken(l: Log, b: byte)
    requires Inv(l.rx) && Feed(l.rx, [b]).Fed?
    ensures Step(l, Take(b)).rx == TakeByte(l.rx, b).rx == Feed(l.rx, [b]).rx
  {
    hide Inv, TakeByte, Spent, Announced, Recovered;
    NotSpent(l.rx);
    assert [b][1..] == [];
  }

  lemma PushedRest(before: seq<Event>, after: seq<Event>)
    requires before <= after
    ensures after == before + Pushed(before, after)
  {
  }

  /** A state with everything drained but what the wire brings next. */
  predicate Drained(r: RxState)
  {
    Inv(r) && r.out.None? && r.events == []
  }

  /** The caller sees to all events and writes out what is queued. */
  lemma {:induction false} Drain(l: Log) returns (ops: seq<Op>)
    requires Inv(l.rx)
    ensures Steps(l, ops).rx == l.rx.(out := None, sent := 0, events := []) && Inv(Steps(l, ops).rx)
    ensures History(l, ops) == []
    decreases |l.rx.events|
  {
    hide Inv, EncHeader, Spent;
    NotSpent(l.rx);
    if l.rx.events == [] {
      WireWrittenInv(l.rx, |l.rx.WireBytes()|);
      ops := [WireOut(|l.rx.WireBytes()|)];
      RunOne(l, WireOut(|l.rx.WireBytes()|));
    } else {
      PopEventInv(l.rx);
      RunOne(l, Pop);
      var rest := Drain(Step(l, Pop));
      ops := [Pop] + rest;
      RunsJoin(l, [Pop], rest);
    }
  }

  // ---------------------------------------------------------------------
  // One file can be reported complete twice
  // ---------------------------------------------------------------------

  /** Inside a data frame, with nothing of it read. */
  predicate Opened(r: RxState)
  {
    && Drained(r) && r.phase == FileReadingSubpacket && r.sub.Reading?
    && r.buf == [] && !r.escapePending && r.reader == FRESH
  }

  /** A subpacket without data, which ends the frame. */
  function Empty(e: Encoding): SubWire
  {
    Sealed(e, ZCRCE, [])
  }

  lemma EmptyFed(r: RxState)
    requires Opened(r)
    ensures Feed(r, Empty(r.encoding).Bytes()) ==
            Fed.Fed(r.Cleared().(retries := 0, phase := FileWaitingSubpacket, sub := Resting))
  {
    hide Feed, CrcAfter, EncHeader, SubWire.Bytes;
    OpenedReads(r);
    EmptySealed(r.encoding);
    SubpacketFed(r, Empty(r.encoding));
    EmptyCompletes(r, Received(r, Empty(r.encoding)));
  }

  lemma OpenedReads(r: RxState)
    requires Opened(r)
    ensures Reads(r)
  {
    hide EncHeader, CrcAfter;
  }

  lemma EmptySealed(e: Encoding)
    ensures |Empty(e).sum| == CrcLen(e) && Empty(e).Intact(e) && Empty(e).kind == ZCRCE
  {
  }

  lemma EmptyCompletes(r: RxState, t: RxState)
    requires r.phase == FileReadingSubpacket && r.buf == [] && t == r.(crc := t.crc, sub := t.sub, buf := [])
    ensures CompleteSubpacket(t, ZCRCE) == Done(r.Cleared().(retries := 0, phase := FileWaitingSubpacket, sub := Resting))
  {
  }

  /** An empty subpacket and a ZEOF complete whatever file the frame belongs to. */
  lemma OpenedCompletes(l: Log) returns (ops: seq<Op>)
    requires Opened(l.rx)
    ensures History(l, ops) == [FileComplete] && Inv(Steps(l, ops).rx)
    ensures
      var t := Steps(l, ops).rx;
      t.phase == FileBegin && !t.active && t.reader == FRESH && t.count == l.rx.count
  {
    hide Feed, Inv, SubWire.Bytes, HeaderCore, Header.WithCount, ZrinitHeader, Sealed;
    var r := l.rx;
    var first, last := Takes(Empty(r.encoding).Bytes()), Takes(HeaderCore(ZEOF_HEADER.WithCount(r.count)));
    EmptyFed(r);
    TakesFed(l, Empty(r.encoding).Bytes());
    FeedInv(r, Empty(r.encoding).Bytes());
    var m := Steps(l, first);
    WaitsForEnd(m.rx);
    Deliveries.ZeofHeard(m.rx);
    TakesFed(m, HeaderCore(ZEOF_HEADER.WithCount(r.count)));
    FeedInv(m.rx, HeaderCore(ZEOF_HEADER.WithCount(r.count)));
    RunsJoin(l, first, last);
    ops := first + last;
  }

  lemma WaitsForEnd(r: RxState)
    requires r.phase == FileWaitingSubpacket && r.sub.Resting? && r.out.None? && r.events == [] && r.reader == FRESH
    ensures Deliveries.Hears(r) && Protocol.Waiting(r)
  {
  }

  /** The condition is exact: wherever such a ZDATA comes between files, there is a
      way to go on that completes a file without a new start. */
  lemma ReopenedCompletes(l: Log, op: Op) returns (more: seq<Op>)
    requires Inv(l.rx) && Reopens(l, op)
    ensures History(l, [op] + more) == [FileComplete]
  {
    hide Inv, ReadStep, Spent, Resumes;
    ReopenedOpens(l, op);
    RunOne(l, op);
    var m := Step(l, op);
    var drain := Drain(m);
    DrainedOpened(m.rx);
    RunsJoin(m, drain, []);
    var rest := OpenedCompletes(Steps(m, drain));
    RunsJoin(m, drain, rest);
    more := drain + rest;
    RunsJoin(l, [op], more);
  }

  /** Inside a data frame, but for what the caller has still to drain. */
  predicate Ajar(r: RxState)
  {
    && Inv(r) && r.phase == FileReadingSubpacket && r.sub.Reading? && r.buf == [] && !r.escapePending && r.reader == FRESH
  }

  lemma DrainedOpened(r: RxState)
    requires Ajar(r) && Inv(r.(out := None, sent := 0, events := []))
    ensures Opened(r.(out := None, sent := 0, events := []))
  {
    hide Inv;
  }

  lemma ReopenedOpens(l: Log, op: Op)
    requires Inv(l.rx) && Reopens(l, op)
    ensures Ajar(Step(l, op).rx) && Pushed(l.rx.events, Step(l, op).rx.events) == []
  {
    hide Inv, ReadStep, Spent, Header.Count;
    TakeByteInv(l.rx, op.b);
    GotIsFresh(l.rx.reader, op.b);
    PushedOne(l.rx.events, FileStart);
  }

  // ---------------------------------------------------------------------
  // From the start
  // ---------------------------------------------------------------------

  function Start(bufferLen: nat, overlapped: bool): Log
  {
    Log(Initial(bufferLen, overlapped), 0, [], [])
  }

  /** Between frames, waiting for data or for the next file. */
  predicate Ready(r: RxState)
  {
    Drained(r) && r.phase == FileBegin && r.sub.Resting? && r.reader == FRESH
  }

  lemma ReadyHears(r: RxState)
    requires Ready(r)
    ensures Deliveries.Hears(r)
  {
    hide Inv;
  }

  /** A session opens and a file is announced, and the caller drains what there is. */
  lemma FileAnnounced(bufferLen: nat, overlapped: bool, f: Protocol.File) returns (ops: seq<Op>)
    requires bufferLen < 0x1_0000 && Protocol.Sendable(f)
    ensures History(Start(bufferLen, overlapped), ops) == [FileStart]
    ensures
      var t := Steps(Start(bufferLen, overlapped), ops).rx;
      Ready(t) && t.active && t.count == 0
  {
    hide Inv, Feed, HeaderCore, SubWire.Bytes, Sealed, Metadata, Header.WithCount, Protocol.Sendable, ZrinitHeader, Steps, History;
    var l := Start(bufferLen, overlapped);
    InitialInv(bufferLen, overlapped);
    var first := Drain(l);
    var m := Steps(l, first);
    Greeting(m.rx);
    var header := Takes(HeaderCore(ZFILE_HEADER));
    Deliveries.ZfileHeard(m.rx);
    TakesFed(m, HeaderCore(ZFILE_HEADER));
    FeedInv(m.rx, HeaderCore(ZFILE_HEADER));
    var k := Steps(m, header);
    var rest := MetadataTaken(k, f);
    RunsJoin(l, first, header);
    RunsJoin(l, first + header, rest);
    ops := first + header + rest;
  }

  lemma Greeting(r: RxState)
    requires r.phase == SessionBegin && r.out.None? && r.events == [] && r.reader == FRESH && r.sub.Resting?
    ensures Deliveries.Hears(r)
  {
  }

  lemma MetadataTaken(l: Log, f: Protocol.File) returns (ops: seq<Op>)
    requires Inv(l.rx) && Protocol.Sendable(f) && Deliveries.Listens(l.rx) && l.rx.phase == FileReadingMetadata
    requires !l.rx.manual && l.rx.reader == FRESH
    ensures History(l, ops) == [FileStart]
    ensures
      var t := Steps(l, ops).rx;
      Ready(t) && t.active && t.count == 0
  {
    hide Inv, Feed, SubWire.Bytes, Sealed, Metadata, Header.WithCount, Steps, History, Checked;
    var wire := Sealed(ZBIN32, ZCRCW, Metadata(f.name, |f.content|)).Bytes();
    Deliveries.MetadataHeard(l.rx, f);
    TakesFed(l, wire);
    FeedInv(l.rx, wire);
    var m := Steps(l, Takes(wire));
    assert l.rx.events + History(l, Takes(wire)) == History(l, Takes(wire));
    var drain := Drain(m);
    RunsJoin(l, Takes(wire), drain);
    ops := Takes(wire) + drain;
  }

  /** A ZDATA at the offset the receiver stands at, active or not. */
  lemma DataOpened(l: Log) returns (ops: seq<Op>)
    requires Ready(l.rx)
    ensures History(l, ops) == [] && Opened(Steps(l, ops).rx)
    ensures Steps(l, ops).rx.encoding == ZBIN32 && Steps(l, ops).rx.count == l.rx.count
  {
    hide Inv, Feed, HeaderCore, Header.WithCount, Steps, History;
    var r, h := l.rx, ZDATA_HEADER.WithCount(l.rx.count);
    ReadyHears(r);
    ZdataOpens(r);
    TakesFed(l, HeaderCore(h));
    FeedInv(r, HeaderCore(h));
    ops := Takes(HeaderCore(h));
    assert l.rx.events + History(l, ops) == History(l, ops);
  }

  lemma ZdataOpens(r: RxState)
    requires Deliveries.Hears(r) && r.phase == FileBegin
    ensures Feed(r, HeaderCore(ZDATA_HEADER.WithCount(r.count))) ==
            Fed.Fed(r.(reader := FRESH).Cleared().(encoding := ZBIN32, phase := FileReadingSubpacket, sub := Reading))
  {
    hide Feed, HeaderCore, FromLe, LeBytes;
    CountRoundTrip(ZDATA_HEADER, r.count);
    HeaderFed(r, ZDATA_HEADER.WithCount(r.count));
  }

  /** A frame with an empty subpacket, and the ZEOF behind it. */
  lemma FrameCompletes(l: Log) returns (ops: seq<Op>)
    requires Ready(l.rx)
    ensures History(l, ops) == [FileComplete] && Ready(Steps(l, ops).rx)
  {
    hide Inv, Steps, History;
    var first := DataOpened(l);
    var m := Steps(l, first);
    var second := OpenedCompletes(m);
    var k := Steps(m, second);
    var third := Drain(k);
    RestingBetween(k.rx);
    RunsJoin(l, first, second);
    RunsJoin(l, first + second, third);
    ops := first + second + third;
  }

  lemma RestingBetween(r: RxState)
    requires Inv(r) && r.phase == FileBegin
    ensures r.sub.Resting?
  {
    hide EncHeader, Checked;
  }

  /** One file can be reported complete twice: there is a run from the start with one
      announcement and two completions. */
  lemma CompletedTwice(bufferLen: nat, overlapped: bool) returns (ops: seq<Op>)
    requires bufferLen < 0x1_0000
    ensures History(Start(bufferLen, overlapped), ops) == [FileStart, FileComplete, FileComplete]
  {
    hide Ready, Steps, History, Start;
    var l := Start(bufferLen, overlapped);
    var first := FileAnnounced(bufferLen, overlapped, Protocol.File([0x61], []));
    var second := FrameCompletes(Steps(l, first));
    RunsJoin(l, first, second);
    var third := FrameCompletes(Steps(l, first + second));
    RunsJoin(l, first + second, third);
    ops := first + second + third;
  }

  // ---------------------------------------------------------------------
  // The end of a session can be left
  // ---------------------------------------------------------------------

  /** Abort with one byte on offer and persist it: there is a run from the start on
      which the receiver then waits for data again. */
  lemma SessionEndLeft(bufferLen: nat, overlapped: bool) returns (ops: seq<Op>)
    requires bufferLen < 0x1_0000
    ensures Steps(Start(bufferLen, overlapped), ops).rx.phase == SessionEnd
    ensures Steps(Start(bufferLen, overlapped), ops + [FileOut(1)]).rx.phase == FileWaitingSubpacket
  {
    hide Inv, Feed, SubWire.Bytes, Sealed, Steps, History, Start, Protocol.Sendable;
    var l, m := Start(bufferLen, overlapped), Sealed(ZBIN32, ZCRCE, [0]);
    var first := OneByteFile(bufferLen, overlapped);
    var second := DataOpened(Steps(l, first));
    RunsJoin(l, first, second);
    var k := Steps(l, first + second);
    OpenedListens(k.rx);
    Deliveries.SealedShape(ZCRCE, [0]);
    Deliveries.DataHeard(k.rx, m);
    TakesFed(k, m.Bytes());
    FeedInv(k.rx, m.Bytes());
    RunsJoin(l, first + second, Takes(m.Bytes()));
    var offer := first + second + Takes(m.Bytes());
    OfferAborted(Steps(l, offer));
    RunOne(Steps(l, offer), Stop);
    RunsJoin(l, offer, [Stop]);
    ops := offer + [Stop];
    RunOne(Steps(l, ops), FileOut(1));
    RunsJoin(l, ops, [FileOut(1)]);
  }

  lemma OneByteFile(bufferLen: nat, overlapped: bool) returns (ops: seq<Op>)
    requires bufferLen < 0x1_0000
    ensures
      var t := Steps(Start(bufferLen, overlapped), ops).rx;
      Ready(t) && t.active && t.count == 0
  {
    hide Ready, Steps, History, Start;
    ops := FileAnnounced(bufferLen, overlapped, Protocol.File([0x61], [0]));
  }

  lemma OpenedListens(r: RxState)
    requires Opened(r) && r.encoding == ZBIN32
    ensures Deliveries.Listens(r)
  {
    hide EncHeader, Checked;
  }

  lemma OfferAborted(l: Log)
    requires Inv(l.rx) && l.rx.phase == FileReadingSubpacket && l.rx.sub == Writing(ZCRCE)
    requires l.rx.buf == [0] && l.rx.written == 0 && l.rx.events == [] && l.rx.count == 0
    ensures
      var ended := Step(l, Stop);
      ended.rx.phase == SessionEnd && Step(ended, FileOut(1)).rx.phase == FileWaitingSubpacket
  {
    hide Inv, Header.WithCount;
  }
}
