/** A frame need not arrive in one piece, nor do the timers wait for its end: whatever
    happens between its bytes could as well have happened in front of it. */
module ProtocolPieces {
  import opened Primitives
  import opened HeaderCodec
  import opened HeaderReading
  import opened Subpackets
  import opened FileMetadata
  import opened Protocol
  import opened ProtocolDown
  import opened ProtocolTransfer
  import opened ProtocolUp
  import opened ProtocolSafety
  import opened ProtocolRuns
  import Tx = SenderSpec
  import Rx = ReceiverSpec
  import RxFrames = ReceiverFrames
  import TxInvariant = SenderInvariant
  import RxInvariant = ReceiverInvariant

  /** Some bytes arrive, or the timer fires and what it queues is written out. */
  datatype Part = Slice(bytes: seq<byte>) | Clock

  function Joined(parts: seq<Part>): seq<byte>
  {
    if parts == [] then []
    else (if parts[0].Slice? then parts[0].bytes else []) + Joined(parts[1..])
  }

  /** The last byte comes last. */
  predicate EndsInBytes(parts: seq<Part>)
  {
    parts != [] && parts[|parts| - 1].Slice? && parts[|parts| - 1].bytes != []
  }

  function Clocks(parts: seq<Part>): nat
  {
    if parts == [] then 0 else (if parts[0].Clock? then 1 else 0) + Clocks(parts[1..])
  }

  lemma {:induction false} BytesToCome(parts: seq<Part>)
    requires EndsInBytes(parts)
    ensures Joined(parts) != []
    decreases |parts|
  {
    if |parts| > 1 {
      assert parts[1..][|parts| - 2] == parts[|parts| - 1];
      BytesToCome(parts[1..]);
    }
  }

  // ---------------------------------------------------------------------
  // At the receiver
  // ---------------------------------------------------------------------

  /** The receiver's timer fires, and what it queues is written out. */
  function RxClock(r: Rx.RxState): Rx.RxState
  {
    var t := Rx.Timeout(r).rx;
    Rx.WireWritten(t, |t.WireBytes()|)
  }

  function RxPieces(r: Rx.RxState, parts: seq<Part>): Rx.Fed
    decreases |parts|
  {
    if parts == [] then Rx.Fed.Fed(r)
    else if parts[0].Clock? then RxPieces(RxClock(r), parts[1..])
    else
      var f := Rx.Feed(r, parts[0].bytes);
      if f.Fed? then RxPieces(f.rx, parts[1..]) else f
  }

  /** What the timer puts out on the way. */
  function RxEmits(r: Rx.RxState, parts: seq<Part>): seq<Header>
    decreases |parts|
  {
    if parts == [] then []
    else if parts[0].Clock? then OutOf(Rx.Timeout(r).rx) + RxEmits(RxClock(r), parts[1..])
    else
      var f := Rx.Feed(r, parts[0].bytes);
      if f.Fed? then RxEmits(f.rx, parts[1..]) else []
  }

  /** A timer that fires between two bytes leaves the receiver as it was. */
  lemma RxClockIdle(r: Rx.RxState)
    requires r.out.None? && r.sent == 0
    ensures RxClock(r) == r
    ensures OutOf(Rx.Timeout(r).rx) == if Ticking(r) then [Zrinit(r)] else []
  {
    hide EncHeader, Rx.ZrinitHeader;
  }

  /** Bytes still to be taken find the receiver with nothing queued. */
  lemma RxOpen(r: Rx.RxState, wire: seq<byte>)
    requires Rx.Inv(r) && wire != [] && Rx.Feed(r, wire).Fed?
    ensures r.CanRead() && r.out.None? && r.sent == 0
  {
    hide Rx.Inv, Rx.TakeByte;
    RxQuiet(r);
  }

  lemma RxSplit(r: Rx.RxState, a: seq<byte>, b: seq<byte>)
    requires Rx.Inv(r) && Rx.Feed(r, a + b).Fed?
    ensures Rx.Feed(r, a).Fed? && Rx.Feed(r, a + b) == Rx.Feed(Rx.Feed(r, a).rx, b) && Rx.Inv(Rx.Feed(r, a).rx)
  {
    hide Rx.Inv, Rx.Feed;
    if !Rx.Feed(r, a).Fed? {
      RxFrames.UnfedPrefix(r, a, b);
    }
    Rx.FeedConcat(r, a, b);
    RxInvariant.FeedInv(r, a);
  }

  /** Any bytes that are taken whole are taken in any pieces, with timers firing
      between them, and come to the same. */
  lemma {:induction false} RxPiecesFed(r: Rx.RxState, parts: seq<Part>)
    requires Rx.Inv(r) && EndsInBytes(parts) && Rx.Feed(r, Joined(parts)).Fed?
    ensures RxPieces(r, parts) == Rx.Feed(r, Joined(parts))
    decreases |parts|
  {
    hide Rx.Inv, Rx.Feed, RxClock;
    BytesToCome(parts);
    RxOpen(r, Joined(parts));
    var rest := parts[1..];
    if parts[0].Clock? {
      RxClockIdle(r);
      assert [] + Joined(rest) == Joined(rest);
      assert rest[|rest| - 1] == parts[|parts| - 1];
      RxPiecesFed(r, rest);
    } else {
      RxSplit(r, parts[0].bytes, Joined(rest));
      if rest == [] {
        assert parts[0].bytes + [] == parts[0].bytes;
      } else {
        assert rest[|rest| - 1] == parts[|parts| - 1];
        RxPiecesFed(Rx.Feed(r, parts[0].bytes).rx, rest);
      }
    }
  }

  function Copies<T>(x: T, n: nat): seq<T>
  {
    if n == 0 then [] else [x] + Copies(x, n - 1)
  }

  predicate OnlyReader(r: Rx.RxState, f: Rx.Fed)
  {
    f.Fed? && f.rx == r.(reader := f.rx.reader)
  }

  /** Every proper part of these bytes moves the reader and nothing else. */
  predicate InHeader(r: Rx.RxState, wire: seq<byte>)
  {
    forall k :: 0 <= k < |wire| ==> OnlyReader(r, Rx.Feed(r, wire[..k]))
  }

  lemma HeaderInside(r: Rx.RxState, h: Header)
    requires r.CanRead() && !r.InSubpacket() && r.reader.scan.Seeking?
    ensures InHeader(r, HeaderCore(h))
  {
    hide Rx.Feed, ReadChunk, HeaderCore;
    var wire := HeaderCore(h);
    HeaderRead(r.reader, h);
    forall k | 0 <= k < |wire|
      ensures OnlyReader(r, Rx.Feed(r, wire[..k]))
    {
      NotYet(r.reader, wire, k);
      RxFrames.ReaderFed(r, wire[..k]);
    }
  }

  /** A header is not read before its last byte. */
  lemma NotYet(r: Reader, wire: seq<byte>, k: nat)
    requires k < |wire| && ReadChunk(r, wire).taken == |wire|
    ensures ReadChunk(r, wire[..k]).outcome.Nothing?
  {
    hide ReadChunk;
    assert wire[..k] + wire[k..] == wire;
    if !ReadChunk(r, wire[..k]).outcome.Nothing? {
      ReadChunkPrefix(r, wire[..k], wire[k..]);
    }
  }

  lemma InHeaderRest(r: Rx.RxState, a: seq<byte>, b: seq<byte>)
    requires Rx.Inv(r) && Rx.Feed(r, a + b).Fed? && InHeader(r, a + b) && b != []
    ensures
      var m := Rx.Feed(r, a).rx;
      m == r.(reader := m.reader) && InHeader(m, b)
  {
    hide Rx.Inv, Rx.Feed;
    RxSplit(r, a, b);
    assert (a + b)[..|a|] == a;
    assert OnlyReader(r, Rx.Feed(r, (a + b)[..|a|]));
    var m := Rx.Feed(r, a).rx;
    forall k | 0 <= k < |b|
      ensures OnlyReader(m, Rx.Feed(m, b[..k]))
    {
      assert (a + b)[..|a| + k] == a + b[..k];
      assert OnlyReader(r, Rx.Feed(r, (a + b)[..|a| + k]));
      Rx.FeedConcat(r, a, b[..k]);
    }
  }

  /** Inside a header the timer repeats ZRINIT each time, or never. */
  lemma {:induction false} HeaderEmits(r: Rx.RxState, parts: seq<Part>)
    requires Rx.Inv(r) && EndsInBytes(parts) && Rx.Feed(r, Joined(parts)).Fed? && InHeader(r, Joined(parts))
    ensures RxEmits(r, parts) == Copies(Zrinit(r), if Ticking(r) then Clocks(parts) else 0)
    decreases |parts|
  {
    hide Rx.Inv, Rx.Feed, RxClock, Rx.Timeout, Rx.ZrinitHeader, InHeader, OutOf;
    BytesToCome(parts);
    RxOpen(r, Joined(parts));
    var rest := parts[1..];
    if parts[0].Clock? {
      RxClockIdle(r);
      assert [] + Joined(rest) == Joined(rest);
      assert rest[|rest| - 1] == parts[|parts| - 1];
      HeaderEmits(r, rest);
      assert [] + RxEmits(r, rest) == RxEmits(r, rest);
    } else {
      RxSplit(r, parts[0].bytes, Joined(rest));
      if rest != [] {
        assert rest[|rest| - 1] == parts[|parts| - 1];
        BytesToCome(rest);
        InHeaderRest(r, parts[0].bytes, Joined(rest));
        HeaderEmits(Rx.Feed(r, parts[0].bytes).rx, rest);
      }
    }
  }

  /** The timer fires so many times, and each time what it queues is written out. */
  function Early(k: nat): seq<Act>
  {
    if k == 0 then [] else [RxTick, RxFlush] + Early(k - 1)
  }

  /** The timer has fired once, and its ZRINIT is under way. */
  function Repeated(y: Sys): Sys
  {
    y.(up := y.up + [Zrinit(y.r)], hasty := y.hasty || Hasty(y.r))
  }

  lemma TickAndFlush(y: Sys)
    requires Ticking(y.r) && y.r.sent == 0 && y.r.events == []
    ensures Enabled(y, RxTick) && Enabled(Next(y, RxTick), RxFlush)
    ensures Next(Next(y, RxTick), RxFlush) == Repeated(y)
  {
    hide EncHeader, Rx.ZrinitHeader;
  }

  lemma OneTick(y: Sys, rest: seq<Act>)
    requires Ticking(y.r) && y.r.sent == 0 && y.r.events == [] && Possible(Repeated(y), rest)
    ensures
      var run := [RxTick, RxFlush] + rest;
      Possible(y, run) && Run(y, run) == Run(Repeated(y), rest)
  {
    hide Possible, Run, Next, Enabled, Ticking, Repeated;
    TickAndFlush(y);
    var run := Then(Next(y, RxTick), RxFlush, rest);
    run := Then(y, RxTick, run);
    assert [RxTick] + ([RxFlush] + rest) == [RxTick, RxFlush] + rest;
  }

  lemma RepeatedParts(y: Sys)
    ensures
      var t := Repeated(y);
      t == y.(up := t.up, hasty := t.hasty) && t.up == y.up + [Zrinit(y.r)]
  {
    hide Rx.ZrinitHeader;
  }

  lemma OneMore(up: seq<Header>, h: Header, k: nat)
    requires k > 0
    ensures (up + [h]) + Copies(h, k - 1) == up + Copies(h, k)
    ensures [RxTick, RxFlush] + (Early(k - 1) + [RxRecv]) == Early(k) + [RxRecv]
  {
  }

  lemma {:induction false} EarlyTicks(y: Sys, k: nat)
    requires Enabled(y, RxRecv) && y.r.sent == 0 && y.r.events == [] && (k > 0 ==> Ticking(y.r))
    ensures
      var run := Early(k) + [RxRecv];
      && Possible(y, run)
      && Run(y, run).r == Next(y, RxRecv).r && Run(y, run).up == y.up + Copies(Zrinit(y.r), k)
    decreases k
  {
    hide Possible, Run, Next, Enabled, Ticking, Rx.ZrinitHeader, Repeated;
    if k == 0 {
      RecvNext(y);
      var run := Then(y, RxRecv, []);
      assert Early(0) + [RxRecv] == [RxRecv] + [];
      assert y.up + [] == y.up;
    } else {
      hide Early, Copies;
      RepeatedParts(y);
      RecvSame(y, Repeated(y));
      EarlyTicks(Repeated(y), k - 1);
      OneTick(y, Early(k - 1) + [RxRecv]);
      OneMore(y.up, Zrinit(y.r), k);
    }
  }

  lemma RecvNext(y: Sys)
    requires Enabled(y, RxRecv)
    ensures y.down != [] && Next(y, RxRecv).r == Rx.Feed(y.r, Item(y.down[0])).rx && Next(y, RxRecv).up == y.up
    ensures Possible(Next(y, RxRecv), []) && Run(Next(y, RxRecv), []) == Next(y, RxRecv)
  {
    hide Rx.Feed, Item;
  }

  /** What is under way up does not matter to the receiver. */
  lemma RecvSame(y: Sys, t: Sys)
    requires Enabled(y, RxRecv) && t == y.(up := t.up, hasty := t.hasty)
    ensures Enabled(t, RxRecv) && Next(t, RxRecv).r == Next(y, RxRecv).r
  {
    hide Rx.Feed, Item;
  }

  /** A header in front finds the receiver ready for it. */
  lemma HeadHears(z: Sys)
    requires Ripe(z) && z.down[0].Head?
    ensures !z.r.InSubpacket() && z.r.reader.scan.Seeking?
  {
    hide Rx.Inv, Common, Sendable, Filed, Stale, Holding, Closed, Announced, Rx.ZrinitHeader, Header.WithCount;
    hide Whole, Begun, Metadata, Sealed, Requested, Persisting, AllData;
    if z.s.phase == Tx.WaitFilePos && z.r.phase == Rx.FileReadingMetadata {
      ZfileFirst(z.Current());
    }
  }

  /** A header that arrives in pieces, with the timer firing between them, comes to
      what the joined system does when the timer fires first and the header then
      arrives whole. */
  lemma HeaderInPieces(y: Sys, parts: seq<Part>)
    requires y.down != [] && Inv(y) && Enabled(y, RxRecv) && y.r.events == [] && y.down[0].Head?
    requires EndsInBytes(parts) && Joined(parts) == Item(y.down[0])
    ensures
      var run := Early(if Ticking(y.r) then Clocks(parts) else 0) + [RxRecv];
      && Possible(y, run)
      && RxPieces(y.r, parts) == Rx.Fed.Fed(Run(y, run).r)
      && Run(y, run).up == y.up + RxEmits(y.r, parts)
  {
    hide Tx.Inv, Rx.Inv, Lawful, Rx.Feed, Flat, HeaderCore, Possible, Run, Early, RxPieces, RxEmits, Joined, Lighter;
    RxReads(y);
    RxQuiet(y.r);
    DownTaken(y);
    RecvNext(y);
    HeadHears(Flat(y));
    HeaderInside(y.r, y.down[0].header);
    RxPiecesFed(y.r, parts);
    HeaderEmits(y.r, parts);
    EarlyTicks(y, if Ticking(y.r) then Clocks(parts) else 0);
  }

  lemma DownTaken(y: Sys)
    requires y.down != [] && Inv(y) && Enabled(y, RxRecv)
    ensures Rx.Feed(y.r, Item(y.down[0])).Fed?
  {
    hide Tx.Inv, Rx.Inv, Lawful, Rx.Feed, Item, Flat, Lighter;
    RxReads(y);
    DownLands(Flat(y));
  }

  // ---------------------------------------------------------------------
  // At the sender
  // ---------------------------------------------------------------------

  function TxClock(s: Tx.TxState): Tx.TxState
  {
    var t := Tx.Timeout(s).tx;
    Tx.WireWritten(t, |t.WireBytes()|)
  }

  function TxPieces(s: Tx.TxState, parts: seq<Part>): Tx.Fed
    decreases |parts|
  {
    if parts == [] then Tx.Fed.Fed(s)
    else if parts[0].Clock? then TxPieces(TxClock(s), parts[1..])
    else
      var f := Tx.Feed(s, parts[0].bytes);
      if f.Fed? then TxPieces(f.tx, parts[1..]) else f
  }

  lemma TxClockIdle(s: Tx.TxState)
    requires s.out == [] && s.sent == 0
    ensures TxClock(s) == s
  {
    hide Tx.MsgBytes;
  }

  lemma TxOpen(s: Tx.TxState, wire: seq<byte>)
    requires Tx.Inv(s) && wire != [] && Tx.Feed(s, wire).Fed?
    ensures !s.Blocked() && s.out == [] && s.sent == 0
  {
    hide Tx.Inv, Tx.TakeByte;
    TxQuiet(s);
  }

  lemma TxSplit(s: Tx.TxState, a: seq<byte>, b: seq<byte>)
    requires Tx.Inv(s) && Tx.Feed(s, a + b).Fed?
    ensures Tx.Feed(s, a).Fed? && Tx.Feed(s, a + b) == Tx.Feed(Tx.Feed(s, a).tx, b) && Tx.Inv(Tx.Feed(s, a).tx)
  {
    hide Tx.Inv, Tx.Feed;
    if !Tx.Feed(s, a).Fed? {
      TxUnfed(s, a, b);
    }
    Tx.FeedConcat(s, a, b);
    TxInvariant.FeedInv(s, a);
  }

  lemma {:induction false} TxUnfed(s: Tx.TxState, a: seq<byte>, b: seq<byte>)
    requires !Tx.Feed(s, a).Fed?
    ensures Tx.Feed(s, a + b) == Tx.Feed(s, a)
    decreases |a|
  {
    hide Tx.TakeByte;
    if a != [] && !s.Blocked() {
      assert (a + b)[1..] == a[1..] + b;
      if Tx.TakeByte(s, a[0]).Done? {
        TxUnfed(Tx.TakeByte(s, a[0]).tx, a[1..], b);
      }
    }
  }

  /** The same of any bytes that the sender takes whole. Its timer asks for a receiver
      again or does nothing, and leaves the sender as it was. */
  lemma {:induction false} TxPiecesFed(s: Tx.TxState, parts: seq<Part>)
    requires Tx.Inv(s) && EndsInBytes(parts) && Tx.Feed(s, Joined(parts)).Fed?
    ensures TxPieces(s, parts) == Tx.Feed(s, Joined(parts))
    decreases |parts|
  {
    hide Tx.Inv, Tx.Feed, TxClock;
    BytesToCome(parts);
    TxOpen(s, Joined(parts));
    var rest := parts[1..];
    if parts[0].Clock? {
      TxClockIdle(s);
      assert [] + Joined(rest) == Joined(rest);
      assert rest[|rest| - 1] == parts[|parts| - 1];
      TxPiecesFed(s, rest);
    } else {
      TxSplit(s, parts[0].bytes, Joined(rest));
      if rest == [] {
        assert parts[0].bytes + [] == parts[0].bytes;
      } else {
        assert rest[|rest| - 1] == parts[|parts| - 1];
        TxPiecesFed(Tx.Feed(s, parts[0].bytes).tx, rest);
      }
    }
  }

  // ---------------------------------------------------------------------
  // Every frame of the joined system
  // ---------------------------------------------------------------------

  /** Whatever frame is delivered next to the receiver, in any pieces and with its
      timer firing between them: it leaves it where delivering it whole does. */
  lemma FrameInPieces(y: Sys, parts: seq<Part>)
    requires y.down != [] && Inv(y) && Enabled(y, RxRecv) && EndsInBytes(parts) && Joined(parts) == Item(y.down[0])
    ensures RxPieces(y.r, parts) == Rx.Fed.Fed(Next(y, RxRecv).r)
  {
    hide Tx.Inv, Rx.Inv, Lawful, Rx.Feed, Flat, Item, RxPieces, Joined;
    DownTaken(y);
    RecvNext(y);
    RxPiecesFed(y.r, parts);
  }

  /** And so for the sender. */
  lemma AnswerInPieces(y: Sys, parts: seq<Part>)
    requires y.up != [] && Inv(y) && Enabled(y, TxRecv) && EndsInBytes(parts) && Joined(parts) == HeaderCore(y.up[0])
    ensures TxPieces(y.s, parts) == Tx.Fed.Fed(Next(y, TxRecv).s)
  {
    hide Tx.Inv, Rx.Inv, Lawful, Tx.Feed, Flat, HeaderCore, TxPieces, Joined;
    UpTaken(y);
    TxPiecesFed(y.s, parts);
  }

  lemma UpTaken(y: Sys)
    requires y.up != [] && Inv(y) && Enabled(y, TxRecv)
    ensures Tx.Feed(y.s, HeaderCore(y.up[0])).Fed? && Next(y, TxRecv).s == Tx.Feed(y.s, HeaderCore(y.up[0])).tx
  {
    hide Tx.Inv, Rx.Inv, Lawful, Tx.Feed, HeaderCore, Flat, Proceeds;
    TxHears(y);
    UpTells(Flat(y));
  }
}
