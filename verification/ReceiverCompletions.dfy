/** How often a file is reported: along any run of the receiver, completions against
    starts, and the one header that can upset the count. */
module ReceiverCompletions {
  import opened Primitives
  import opened HeaderCodec
  import opened HeaderReading
  import opened Subpackets
  import opened ReceiverSpec
  import opened ReceiverInvariant
  import opened ReceiverRuns

  /** The events a step adds to the queue. */
  function Pushed(before: seq<Event>, after: seq<Event>): seq<Event>
  {
    if |after| > |before| && after[..|before|] == before then after[|before|..] else []
  }

  /** All events reported along a run, in order, seen to or not. */
  function History(l: Log, ops: seq<Op>): seq<Event>
  {
    if ops == [] then []
    else
      var head := ops[..|ops| - 1];
      History(l, head) + Pushed(Steps(l, head).rx.events, Steps(l, ops).rx.events)
  }

  function Times(h: seq<Event>, e: Event): nat
  {
    multiset(h)[e]
  }

  /** A file has been announced, and neither completed nor declined. Data still on
      offer when the session is aborted counts. */
  predicate UnderWay(r: RxState)
  {
    || r.phase == FileAcceptPending || r.phase == FileReadingSubpacket || r.phase == FileWaitingSubpacket
    || (r.phase == FileBegin && r.active) || (r.phase == SessionEnd && r.sub.Writing?)
  }

  /** Between files, the byte completes a ZDATA at the offset where the last file
      ended, which a caller can see from the header. */
  predicate Reopens(l: Log, op: Op)
  {
    && op.Take? && !Spent(l.rx) && l.rx.CanRead() && l.rx.phase == FileBegin && !l.rx.active
    && Resumes(l.rx, ReadStep(l.rx.reader, op.b).outcome)
  }

  predicate Resumes(r: RxState, o: Outcome)
  {
    o.Got? && o.header.frame == ZDATA && o.header.Count() == r.count
  }

  predicate NeverReopens(l: Log, ops: seq<Op>)
  {
    ops == [] ||
    (var head := ops[..|ops| - 1]; NeverReopens(l, head) && !Reopens(Steps(l, head), ops[|ops| - 1]))
  }

  // ---------------------------------------------------------------------
  // One step
  // ---------------------------------------------------------------------

  /** What a step can do to the count: a file comes under way with a start, and goes
      with a completion. */
  predicate Moves(r: RxState, t: RxState)
  {
    var p := Pushed(r.events, t.events);
    && |p| <= 1
    && (UnderWay(t) ==> UnderWay(r) || p == [FileStart])
    && (p == [FileComplete] ==> UnderWay(r) && !UnderWay(t))
  }

  lemma PushedOne(events: seq<Event>, e: Event)
    ensures Pushed(events, events + [e]) == [e] && Pushed(events, events) == []
  {
  }

  /** A state that is no more under way than before, and reports nothing. */
  lemma MovesNot(r: RxState, t: RxState)
    requires t.events == r.events && (UnderWay(t) ==> UnderWay(r))
    ensures Moves(r, t)
  {
    hide UnderWay;
    PushedOne(r.events, FileStart);
  }

  lemma InsideMoves(r: RxState, b: byte)
    requires Inv(r) && r.CanRead() && r.InSubpacket()
    ensures Moves(r, TakeSubpacketByte(r, b).rx)
  {
    hide Inv, CrcStep, CrcState.Updated, Judged;
    MatchedOf(r);
    if r.sub.Trailer? {
      var s := CrcStep(r.crc, r.encoding, b);
      JudgedMoves(r.(crc := s.crc), r.sub.kind, s.verdict);
    } else {
      ReadingMoves(r, b);
    }
  }

  lemma MatchedOf(r: RxState)
    requires Inv(r)
    ensures Matched(r)
  {
    hide EncHeader, Checked;
  }

  lemma ReadingMoves(r: RxState, b: byte)
    requires r.InSubpacket() && (r.sub.SkipTrailer? || r.sub.Reading?)
    ensures Moves(r, TakeSubpacketByte(r, b).rx)
  {
    hide CrcState.Updated, Moves, Pushed, LineTrailer, KindOf;
    MovesNot(r, TakeSubpacketByte(r, b).rx);
  }

  lemma JudgedMoves(r: RxState, k: SubpacketType, v: Verdict)
    requires r.InSubpacket() && r.sub.Trailer? && r.CanRead()
    ensures Moves(r, Judged(r, k, v).rx)
  {
    hide StartFile, FinishSubpacket, Recover, Header.WithCount, Moves, Pushed;
    if r.phase == FileReadingSubpacket {
      JudgedStarts(r, k, v);
      StartsMove(r, Judged(r, k, v));
    } else if r.phase == FileReadingMetadata && v.Good? {
      StartFileMoves(r);
    } else {
      MovesNot(r, Judged(r, k, v).rx);
    }
  }

  lemma StartsMove(r: RxState, p: Reply)
    requires StartsAtMost(r, p) && r.phase == FileReadingSubpacket
    ensures Moves(r, p.rx)
  {
    PushedOne(r.events, FileStart);
  }

  lemma StartFileMoves(r: RxState)
    requires r.phase == FileReadingMetadata && r.sub.Trailer? && r.CanRead()
    ensures Moves(r, StartFile(r).rx)
  {
    hide ParseZfile, Header.WithCount;
    ParseZfileShape(r);
    PushedOne(r.events, FileStart);
  }

  lemma HeaderMoves(r: RxState, h: Header)
    requires Matched(r) && !r.InSubpacket() && r.CanRead()
    requires r.phase == FileBegin && !r.active ==> !(h.frame == ZDATA && h.Count() == r.count)
    ensures Moves(r, HandleHeader(r, h).rx)
  {
    hide Header.WithCount, Header.Count, ZrinitHeader, OnZeof, OnZfin, OnZsinit, OnZfile, OnZdata, Moves;
    EndMoves(r);
    OpenMoves(r, h);
    PushMoves(r);
    MovesNot(r, r);
    if r.out.None? {
      MovesNot(r, QueueZrinit(r).rx);
    }
  }

  lemma PushMoves(r: RxState)
    requires !r.EventsFull() && (r.sub.Writing? ==> r.phase == SessionEnd)
    ensures Moves(r, PushEvent(r.(phase := SessionEnd), Aborted).rx)
  {
    PushedOne(r.events, Aborted);
  }

  lemma EndMoves(r: RxState)
    requires Matched(r) && r.CanRead()
    ensures r.phase == FileWaitingSubpacket || (r.phase == FileBegin && r.active) ==> Moves(r, OnZeof(r).rx)
    ensures r.phase == FileWaitingSubpacket || r.phase == FileBegin ==> Moves(r, OnZfin(r).rx)
  {
    hide ZrinitHeader;
    PushedOne(r.events, FileComplete);
    PushedOne(r.events, SessionComplete);
  }

  lemma OpenMoves(r: RxState, h: Header)
    requires r.CanRead()
    ensures Moves(r, OnZsinit(r, h)) && Moves(r, OnZfile(r, h))
    ensures r.phase == FileWaitingSubpacket || (r.phase == FileBegin && (r.active || h.Count() != r.count)) ==>
              Moves(r, OnZdata(r, h).rx)
  {
    hide Header.WithCount, Header.Count, Moves, Pushed;
    MovesNot(r, OnZsinit(r, h));
    MovesNot(r, OnZfile(r, h));
    if r.phase == FileWaitingSubpacket || (r.phase == FileBegin && (r.active || h.Count() != r.count)) {
      MovesNot(r, OnZdata(r, h).rx);
    }
  }

  lemma ByteMoves(r: RxState, b: byte)
    requires Inv(r) && r.CanRead()
    requires r.phase == FileBegin && !r.active ==> !Resumes(r, ReadStep(r.reader, b).outcome)
    ensures Moves(r, TakeByte(r, b).rx)
  {
    hide Inv, ReadStep, TakeSubpacketByte, HandleHeader, Moves, Pushed, Header.Count;
    MatchedOf(r);
    if r.InSubpacket() {
      InsideMoves(r, b);
    } else {
      var s := ReadStep(r.reader, b);
      var t := r.(reader := s.reader);
      if s.outcome.Got? {
        HeaderMoves(t, s.outcome.header);
        MovesSame(r, t, HandleHeader(t, s.outcome.header).rx);
      } else {
        MovesNot(r, OnOutcome(t, s.outcome).rx);
      }
    }
  }

  lemma MovesSame(r: RxState, t: RxState, u: RxState)
    requires t.events == r.events && t.phase == r.phase && t.active == r.active && t.sub == r.sub
    ensures Moves(r, u) <==> Moves(t, u)
  {
  }

  lemma WriteMoves(r: RxState, n: nat)
    requires Inv(r)
    ensures Moves(r, FileWritten(r, n).rx)
  {
    hide Inv, FinishSubpacket, Moves, Pushed;
    MatchedOf(r);
    var w := r.(written := r.written + Min(n, |r.FileBytes()|));
    if r.sub.Writing? {
      FinishQuiet(w, w.sub.kind);
    }
    MovesNot(r, FileWritten(r, n).rx);
  }

  lemma FinishQuiet(r: RxState, k: SubpacketType)
    ensures FinishSubpacket(r, k).rx.events == r.events
    ensures r.sub.Writing? && UnderWay(FinishSubpacket(r, k).rx) && Matched(r) ==> UnderWay(r)
  {
    hide Header.WithCount;
  }

  lemma AbortMoves(r: RxState)
    requires Inv(r)
    ensures Moves(r, Abort(r).rx)
  {
    hide Inv;
    MatchedOf(r);
    PushedOne(r.events, Aborted);
  }

  lemma ChoiceMoves(r: RxState, offset: u32)
    ensures Moves(r, AcceptFileAt(r, offset).rx) && Moves(r, SkipFile(r).rx)
  {
    hide Header.WithCount, Moves, Pushed;
    MovesNot(r, AcceptFileAt(r, offset).rx);
    MovesNot(r, SkipFile(r).rx);
  }

  lemma StepMoves(l: Log, op: Op)
    requires Kept(l) && !Reopens(l, op)
    ensures Moves(l.rx, Step(l, op).rx)
  {
    hide TakeByte, FileWritten, Inv, Spent, Moves, AcceptFileAt, SkipFile, Abort, Reached;
    var r := l.rx;
    if Spent(r) {
      MovesNot(r, r);
    } else {
      match op {
        case Take(b) =>
          if r.CanRead() {
            ByteMoves(r, b);
          } else {
            MovesNot(r, r);
          }
        case FileOut(n) => WriteMoves(r, n);
        case Stop => AbortMoves(r);
        case Accept(offset) => ChoiceMoves(r, offset);
        case Decline => ChoiceMoves(r, 0);
        case Pop => PopMoves(r);
        case WireOut(n) => MovesNot(r, Step(l, op).rx);
        case Tick => MovesNot(r, Step(l, op).rx);
        case Manual(on) => MovesNot(r, Step(l, op).rx);
      }
    }
  }

  lemma PopMoves(r: RxState)
    ensures Moves(r, PopEvent(r))
  {
  }

  // ---------------------------------------------------------------------
  // Whole runs
  // ---------------------------------------------------------------------

  lemma {:induction false} StepsKept(l: Log, ops: seq<Op>)
    requires Kept(l)
    ensures Kept(Steps(l, ops))
    decreases |ops|
  {
    hide Kept, Step;
    if ops != [] {
      StepsKept(l, ops[..|ops| - 1]);
      StepKept(Steps(l, ops[..|ops| - 1]), ops[|ops| - 1]);
    }
  }

  /** From a state with no file under way, completions never pass starts, and while a
      file is under way there is a start without one. */
  lemma {:induction false} Balanced(l: Log, ops: seq<Op>)
    requires Kept(l) && !UnderWay(l.rx) && NeverReopens(l, ops)
    ensures
      var h := History(l, ops);
      && Times(h, FileComplete) <= Times(h, FileStart)
      && (UnderWay(Steps(l, ops).rx) ==> Times(h, FileComplete) < Times(h, FileStart))
    decreases |ops|
  {
    hide Kept, Step, Reopens, UnderWay;
    if ops != [] {
      var head, op := ops[..|ops| - 1], ops[|ops| - 1];
      Balanced(l, head);
      StepsKept(l, head);
      StepMoves(Steps(l, head), op);
      var p := Pushed(Steps(l, head).rx.events, Steps(l, ops).rx.events);
      TimesMore(History(l, head), p, FileComplete);
      TimesMore(History(l, head), p, FileStart);
      OneOf(p);
    }
  }

  lemma TimesMore(h: seq<Event>, p: seq<Event>, e: Event)
    ensures Times(h + p, e) == Times(h, e) + Times(p, e)
  {
  }

  lemma OneOf(p: seq<Event>)
    requires |p| <= 1
    ensures forall e :: Times(p, e) == if p == [e] then 1 else 0
  {
    forall e
      ensures Times(p, e) == if p == [e] then 1 else 0
    {
      if p != [] {
        assert p == [p[0]];
      }
    }
  }

  /** Between files nothing is reported complete before the next file starts, unless
      a ZDATA at the last offset opens the last file again. */
  lemma NoCompletionBetween(l: Log, ops: seq<Op>)
    requires Kept(l) && !UnderWay(l.rx) && NeverReopens(l, ops)
    requires FileStart !in History(l, ops)
    ensures FileComplete !in History(l, ops)
  {
    hide Kept, UnderWay, NeverReopens, History;
    Balanced(l, ops);
  }

  /** On every run without such a header, completions never pass starts. */
  lemma CompletionsBounded(bufferLen: nat, overlapped: bool, ops: seq<Op>)
    requires bufferLen < 0x1_0000
    requires NeverReopens(Log(Initial(bufferLen, overlapped), 0, [], []), ops)
    ensures
      var h := History(Log(Initial(bufferLen, overlapped), 0, [], []), ops);
      Times(h, FileComplete) <= Times(h, FileStart)
  {
    hide Kept, NeverReopens, History, Times;
    FreshKept(bufferLen, overlapped);
    Balanced(Log(Initial(bufferLen, overlapped), 0, [], []), ops);
  }
}
