/** Flow control in the joined system: what the receiver advertises is what the sender
    keeps to. */
module ProtocolFlow {
  import opened Primitives
  import opened HeaderCodec
  import opened HeaderReading
  import opened Subpackets
  import opened FileMetadata
  import opened Protocol
  import opened ProtocolSafety
  import opened ProtocolRuns
  import Tx = SenderSpec
  import Rx = ReceiverSpec
  import TxFrames = SenderFrames
  import TxInvariant = SenderInvariant
  import TxRuns = SenderRuns
  import Negotiation
  import Pacing = SenderPacing

  /** What passes the sender's end of the wire: a message that goes out, an answer that is
      taken. */
  datatype Note = Out(m: Tx.Msg) | In(h: Header)

  function Outs(ms: seq<Tx.Msg>): seq<Note>
  {
    if ms == [] then [] else [Out(ms[0])] + Outs(ms[1..])
  }

  function Notes(y: Sys, a: Act): seq<Note>
    requires Enabled(y, a)
  {
    match a
    case TxFlush => Outs(y.s.out)
    case TxRecv => [In(y.up[0])]
    case _ => []
  }

  /** All that passed on a run. */
  function History(y: Sys, acts: seq<Act>): seq<Note>
    requires Possible(y, acts)
    decreases |acts|
  {
    if acts == [] then [] else Notes(y, acts[0]) + History(Next(y, acts[0]), acts[1..])
  }

  /** The last header that went out is a ZDATA. */
  predicate Carrying(ns: seq<Note>)
    decreases |ns|
  {
    ns != [] &&
    match ns[|ns| - 1]
    case Out(Head(h)) => h.frame == ZDATA
    case Out(Over) => false
    case _ => Carrying(ns[..|ns| - 1])
  }

  /** The file bytes that went out since the last ZRPOS or ZACK was taken. */
  function Unanswered(ns: seq<Note>): nat
    decreases |ns|
  {
    if ns == [] then 0
    else
      var before := Unanswered(ns[..|ns| - 1]);
      match ns[|ns| - 1]
      case In(h) => if h.frame == ZRPOS || h.frame == ZACK then 0 else before
      case Out(Data(sub)) => before + if Carrying(ns[..|ns| - 1]) then |sub.data| else 0
      case _ => before
  }

  /** At no point more than this went out unanswered. */
  predicate Within(ns: seq<Note>, most: nat)
  {
    forall k :: 0 <= k <= |ns| ==> Unanswered(ns[..k]) <= most
  }

  /** Every ZDATA goes out with nothing unanswered. */
  predicate Paused(ns: seq<Note>)
  {
    forall i :: 0 <= i < |ns| && IsZdata(ns[i]) ==> Unanswered(ns[..i]) == 0
  }

  predicate IsZdata(n: Note)
  {
    n.Out? && n.m.Head? && n.m.header.frame == ZDATA
  }

  // ---------------------------------------------------------------------
  // Histories grow
  // ---------------------------------------------------------------------

  lemma LastOf(ns: seq<Note>, n: Note)
    ensures (ns + [n])[..|ns|] == ns && (ns + [n])[|ns|] == n
  {
  }

  lemma CarriesOn(ns: seq<Note>, n: Note)
    ensures Carrying(ns + [n]) ==
            if n.Out? && n.m.Head? then n.m.header.frame == ZDATA
            else if n == Out(Tx.Over) then false
            else Carrying(ns)
  {
    LastOf(ns, n);
  }

  lemma AddsUp(ns: seq<Note>, n: Note)
    ensures Unanswered(ns + [n]) ==
            if n.In? && (n.h.frame == ZRPOS || n.h.frame == ZACK) then 0
            else if n.Out? && n.m.Data? && Carrying(ns) then Unanswered(ns) + |n.m.sub.data|
            else Unanswered(ns)
  {
    hide Carrying;
    LastOf(ns, n);
  }

  /** One more note. */
  lemma Grown(ns: seq<Note>, n: Note)
    ensures Carrying(ns + [n]) ==
            if n.Out? && n.m.Head? then n.m.header.frame == ZDATA
            else if n == Out(Tx.Over) then false
            else Carrying(ns)
    ensures Unanswered(ns + [n]) ==
            if n.In? && (n.h.frame == ZRPOS || n.h.frame == ZACK) then 0
            else if n.Out? && n.m.Data? && Carrying(ns) then Unanswered(ns) + |n.m.sub.data|
            else Unanswered(ns)
  {
    hide Carrying, Unanswered;
    CarriesOn(ns, n);
    AddsUp(ns, n);
  }

  lemma PausedGrown(ns: seq<Note>, n: Note)
    requires Paused(ns) && (IsZdata(n) ==> Unanswered(ns) == 0)
    ensures Paused(ns + [n])
  {
    hide Unanswered;
    var all := ns + [n];
    forall i | 0 <= i < |all| && IsZdata(all[i])
      ensures Unanswered(all[..i]) == 0
    {
      if i < |ns| {
        assert all[..i] == ns[..i];
      } else {
        assert all[..i] == ns;
      }
    }
  }

  lemma WithinGrown(ns: seq<Note>, n: Note, most: nat)
    requires Within(ns, most) && Unanswered(ns + [n]) <= most
    ensures Within(ns + [n], most)
  {
    hide Unanswered;
    var all := ns + [n];
    forall k | 0 <= k <= |all|
      ensures Unanswered(all[..k]) <= most
    {
      if k <= |ns| {
        assert all[..k] == ns[..k];
      } else {
        assert all[..k] == all;
      }
    }
  }

  lemma WithinNow(ns: seq<Note>, most: nat)
    requires Within(ns, most)
    ensures Unanswered(ns) <= most
  {
    assert ns[..|ns|] == ns;
  }

  lemma OneOut(ns: seq<Note>, m: Tx.Msg)
    ensures ns + Outs([m]) == ns + [Out(m)]
  {
    assert [m][1..] == [];
    assert Outs([m]) == [Out(m)] + Outs([]);
  }

  lemma TwoOuts(ns: seq<Note>, m: Tx.Msg, n: Tx.Msg)
    ensures ns + Outs([m, n]) == (ns + [Out(m)]) + [Out(n)]
  {
    assert [m, n][1..] == [n];
    OneOut(ns + [Out(m)], n);
    assert Outs([m, n]) == [Out(m)] + Outs([n]);
    assert ns + ([Out(m)] + Outs([n])) == (ns + [Out(m)]) + Outs([n]);
  }

  lemma NoOuts(ns: seq<Note>)
    ensures ns + Outs([]) == ns
  {
  }

  /** What the sender puts out other than file data. */
  predicate Plain(ms: seq<Tx.Msg>)
  {
    || ms == []
    || (|ms| == 1 && ms[0] == Tx.Over)
    || (1 <= |ms| <= 2 && ms[0].Head? && ms[0].header.frame != ZDATA && (|ms| == 2 ==> ms[1].Data?))
  }

  lemma PlainOut(ns: seq<Note>, ms: seq<Tx.Msg>, most: nat)
    requires Paused(ns) && Within(ns, most) && Plain(ms)
    ensures Unanswered(ns + Outs(ms)) == Unanswered(ns) && Paused(ns + Outs(ms)) && Within(ns + Outs(ms), most)
  {
    hide Unanswered, Paused, Outs, Carrying, Within;
    WithinNow(ns, most);
    if ms == [] {
      NoOuts(ns);
    } else if |ms| == 1 {
      OneOut(ns, ms[0]);
      assert ms == [ms[0]];
      Grown(ns, Out(ms[0]));
      PausedGrown(ns, Out(ms[0]));
      WithinGrown(ns, Out(ms[0]), most);
    } else {
      var mid := ns + [Out(ms[0])];
      TwoOuts(ns, ms[0], ms[1]);
      assert ms == [ms[0], ms[1]];
      Grown(ns, Out(ms[0]));
      PausedGrown(ns, Out(ms[0]));
      WithinGrown(ns, Out(ms[0]), most);
      Grown(mid, Out(ms[1]));
      PausedGrown(mid, Out(ms[1]));
      WithinGrown(mid, Out(ms[1]), most);
    }
  }

  lemma FrameOut(ns: seq<Note>, offset: u32, data: seq<byte>, kind: SubpacketType, header: bool, most: nat)
    requires Within(ns, most) && Unanswered(ns) + |data| <= most
    requires Paused(ns) && (if header then Unanswered(ns) == 0 else Carrying(ns))
    ensures
      var all := ns + Outs(Tx.DataFrame(offset, data, kind, header));
      Unanswered(all) == Unanswered(ns) + |data| && Paused(all) && Carrying(all) && Within(all, most)
  {
    hide Unanswered, Paused, Within, Outs, Carrying, Checksum, Header.WithCount;
    var h, d := Tx.Head(ZDATA_HEADER.WithCount(offset)), Tx.Data(Sealed(ZBIN32, kind, data));
    DataIs(kind, data);
    CountedIs(offset);
    if header {
      var mid := ns + [Out(h)];
      assert Tx.DataFrame(offset, data, kind, header) == [h, d];
      TwoOuts(ns, h, d);
      Grown(ns, Out(h));
      PausedGrown(ns, Out(h));
      WithinGrown(ns, Out(h), most);
      Grown(mid, Out(d));
      PausedGrown(mid, Out(d));
      WithinGrown(mid, Out(d), most);
    } else {
      assert Tx.DataFrame(offset, data, kind, header) == [d];
      OneOut(ns, d);
      Grown(ns, Out(d));
      PausedGrown(ns, Out(d));
      WithinGrown(ns, Out(d), most);
    }
  }

  lemma DataIs(kind: SubpacketType, data: seq<byte>)
    ensures Sealed(ZBIN32, kind, data).data == data
  {
  }

  lemma CountedIs(offset: u32)
    ensures ZDATA_HEADER.WithCount(offset).frame == ZDATA
  {
  }

  /** What holds of a history holds of what it began with. */
  lemma Begins(ns: seq<Note>, more: seq<Note>, most: nat)
    ensures Paused(ns + more) ==> Paused(ns)
    ensures Within(ns + more, most) ==> Within(ns, most)
  {
    hide Unanswered;
    var all := ns + more;
    if Paused(all) {
      forall i | 0 <= i < |ns| && IsZdata(ns[i])
        ensures Unanswered(ns[..i]) == 0
      {
        assert all[i] == ns[i] && all[..i] == ns[..i];
      }
    }
    if Within(all, most) {
      forall k | 0 <= k <= |ns|
        ensures Unanswered(ns[..k]) <= most
      {
        assert all[..k] == ns[..k];
      }
    }
  }

  // ---------------------------------------------------------------------
  // What holds on the way
  // ---------------------------------------------------------------------

  /** The sender has taken the receiver's ZRINIT to heart. */
  predicate Negotiated(s: Tx.TxState, bufferLen: nat)
  {
    !s.nonstop && (s.phase != Tx.WaitReceiverInit ==> s.perAck * s.maxSubpacket <= bufferLen)
  }

  /** What went out, and what the open frame may still add to it, fits the buffer. */
  predicate Fits(s: Tx.TxState, all: seq<Note>, bufferLen: nat)
  {
    && Within(all, bufferLen) && Paused(all)
    && (s.request.Some? ==>
          && Unanswered(all) + s.frameRemaining * s.maxSubpacket <= bufferLen
          && (if s.needsHeader then Unanswered(all) == 0 else Carrying(all)))
  }

  predicate Flows(s: Tx.TxState, ns: seq<Note>, bufferLen: nat)
  {
    Negotiated(s, bufferLen) && Fits(s, ns + Outs(s.out), bufferLen)
  }

  // ---------------------------------------------------------------------
  // Answers
  // ---------------------------------------------------------------------

  /** The only ZRINIT under way is the receiver's own, and nothing else is under way to a
      sender that has not had one. */
  lemma Honest(y: Sys)
    requires Inv(y) && y.up != [] && !y.s.Blocked()
    ensures y.up[0].frame == ZRINIT || y.s.phase == Tx.WaitReceiverInit ==> y.up[0] == Zrinit(y.r)
  {
    hide Tx.Inv, Rx.Inv, Lawful;
    var z := Flat(y);
    assert z.up[0] == y.up[0] && Zrinit(z.r) == Zrinit(y.r);
    HonestFlat(z);
  }

  lemma HonestFlat(z: Sys)
    requires Lawful(z) && z.up != [] && z.s.phase != Tx.Finished
    ensures z.up[0].frame == ZRINIT || z.s.phase == Tx.WaitReceiverInit ==> z.up[0] == Zrinit(z.r)
  {
    hide Common, Sendable, Filed, Asking, Announced, Trailing, Settled, Rx.ZrinitHeader, Header.WithCount, Tx.ZfileFrame;
    hide Chain, Answering, Persisting, Gone, Lagging;
    AnswerFrames(z.r.count);
  }

  lemma AnswerFrames(n: u32)
    ensures Zrpos(n).frame == ZRPOS && Zack(n).frame == ZACK
  {
  }

  lemma ScaleLess(a: nat, b: nat, m: nat)
    requires a <= b
    ensures a * m <= b * m
  {
  }

  /** Taking the receiver's own ZRINIT settles the pacing. */
  lemma Agreed(s: Tx.TxState, r: Rx.RxState)
    requires s.request.None? && 0 < r.bufferLen < 0x1_0000
    ensures Negotiated(Tx.OnZrinit(s, Zrinit(r)).tx, r.bufferLen)
  {
    hide Tx.OnZrinit, Tx.UpdateCaps, Negotiation.Says, Rx.ZrinitHeader;
    Negotiation.Advertises(r.bufferLen, r.overlapped);
    Pacing.CapsExact(s, Zrinit(r), r.bufferLen, r.overlapped);
    TxRuns.ZrinitOpens(s, Zrinit(r));
  }

  lemma ZrinitPlain(s: Tx.TxState, h: Header)
    requires s.out == [] && s.request.None?
    ensures Plain(Tx.OnZrinit(s, h).tx.out) && Tx.OnZrinit(s, h).tx.request.None?
  {
    hide Tx.UpdateCaps, Sealed, Metadata;
    TxInvariant.CapsOnly(s, h);
  }

  lemma ZrposPlain(s: Tx.TxState, offset: u32)
    requires s.out == [] && s.request.None?
    ensures Plain(Tx.OnZrpos(s, offset).tx.out)
    ensures Tx.OnZrpos(s, offset).tx.request.Some? ==> Tx.OnZrpos(s, offset).tx.out == []
  {
    hide Tx.DivCeil, LeBytes;
  }

  lemma EndPlain(s: Tx.TxState)
    requires s.out == [] && s.request.None?
    ensures Plain(Tx.OnZfin(s).tx.out) && Tx.OnZfin(s).tx.request.None?
    ensures Tx.OnZskip(s).out == [] && Tx.OnZskip(s).request.None?
    ensures Tx.Abort(s).out == [] && Tx.Abort(s).request.None?
  {
  }

  /** What a header puts out is never file data, and only a position asks for some. */
  lemma HeaderPlain(s: Tx.TxState, h: Header)
    requires s.out == [] && s.request.None?
    ensures
      var u := Tx.HandleHeader(s, h).tx;
      && Plain(u.out) && (u.request.Some? ==> u.out == [] && (h.frame == ZRPOS || h.frame == ZACK))
  {
    hide Tx.OnZrinit, Tx.OnZrpos, Tx.OnZfin, Tx.OnZskip, Tx.Abort, Header.Count;
    ZrinitPlain(s, h);
    ZrposPlain(s, h.Count());
    EndPlain(s);
  }

  lemma PaceKept(s: Tx.TxState, h: Header)
    requires h.frame != ZRINIT && s.request.None?
    ensures TxRuns.SamePace(s, Tx.HandleHeader(s, h).tx)
  {
    hide Tx.OnZrinit, Tx.OnZrpos, Header.Count;
    TxRuns.ZrposOpens(s, h.Count());
  }

  lemma AnswerNegotiated(s: Tx.TxState, r: Rx.RxState, h: Header)
    requires s.request.None? && 0 < r.bufferLen < 0x1_0000 && Negotiated(s, r.bufferLen)
    requires h.frame == ZRINIT || s.phase == Tx.WaitReceiverInit ==> h == Zrinit(r)
    ensures Negotiated(Tx.HandleHeader(s, h).tx, r.bufferLen)
  {
    hide Tx.HandleHeader, Tx.OnZrinit, Rx.ZrinitHeader;
    ZrinitIs(r);
    if h.frame == ZRINIT {
      Agreed(s, r);
      ZrinitHandled(s, h);
    } else {
      PaceKept(s, h);
    }
  }

  lemma ZrinitIs(r: Rx.RxState)
    ensures Zrinit(r).frame == ZRINIT
  {
  }

  lemma ZrinitHandled(s: Tx.TxState, h: Header)
    requires h.frame == ZRINIT
    ensures Tx.HandleHeader(s, h) == Tx.OnZrinit(s, h)
  {
    hide Tx.OnZrinit;
  }

  lemma AnswerFits(s: Tx.TxState, h: Header, ns: seq<Note>, bufferLen: nat)
    requires Tx.Inv(s) && !s.Blocked() && Fits(s, ns, bufferLen)
    requires Negotiated(Tx.HandleHeader(s, h).tx, bufferLen)
    ensures
      var u := Tx.HandleHeader(s, h).tx;
      Fits(u, (ns + [In(h)]) + Outs(u.out), bufferLen)
  {
    hide Tx.HandleHeader, Tx.Inv, Unanswered, Paused, Within, Carrying, Outs, Tx.DivCeil;
    var u := Tx.HandleHeader(s, h).tx;
    var heard := ns + [In(h)];
    HeaderPlain(s, h);
    Pacing.HeaderJustOpens(s, h);
    WithinNow(ns, bufferLen);
    Grown(ns, In(h));
    PausedGrown(ns, In(h));
    WithinGrown(ns, In(h), bufferLen);
    PlainOut(heard, u.out, bufferLen);
    if u.request.Some? {
      OpenedPhase(s, h);
      ScaleLess(u.frameRemaining, u.perAck, u.maxSubpacket);
    }
  }

  lemma OpenedPhase(s: Tx.TxState, h: Header)
    requires Tx.Inv(s) && !s.Blocked()
    ensures
      var u := Tx.HandleHeader(s, h).tx;
      u.request.Some? ==> u.phase == Tx.NeedFileData
  {
    hide Tx.HandleHeader, Tx.Inv;
    TxInvariant.HandleHeaderInv(s, h);
    TxRuns.RequestPhase(Tx.HandleHeader(s, h).tx);
  }

  /** Taking an answer keeps the flow. */
  lemma AnswerFlows(y: Sys, ns: seq<Note>)
    requires Inv(y) && Enabled(y, TxRecv) && Flows(y.s, ns, y.r.bufferLen) && y.r.bufferLen > 0
    ensures Flows(Next(y, TxRecv).s, ns + [In(y.up[0])], y.r.bufferLen)
  {
    hide Tx.HandleHeader, Tx.Inv, Rx.Inv, Lawful, Tx.Feed, HeaderCore, Fits, Negotiated, Rx.ZrinitHeader;
    var s, h := y.s, y.up[0];
    ReaderFresh(y);
    assert s.(reader := FRESH) == s;
    TxFrames.HeaderFed(s, h);
    BufferBound(y.r);
    Honest(y);
    AnswerNegotiated(s, y.r, h);
    NoOuts(ns);
    AnswerFits(s, h, ns, y.r.bufferLen);
  }

  lemma ReaderFresh(y: Sys)
    requires Inv(y)
    ensures y.s.reader == FRESH
  {
    hide Tx.Inv, Rx.Inv, Hello, Offering, Transferring, Closing, Trailing, Leaving, Left, Begun, Sendable;
  }

  lemma BufferBound(r: Rx.RxState)
    requires Rx.Inv(r)
    ensures r.bufferLen < 0x1_0000
  {
    hide EncHeader, Rx.Checked;
  }

  // ---------------------------------------------------------------------
  // The other steps
  // ---------------------------------------------------------------------

  lemma SubmitOut(t: Tx.TxState, data: seq<byte>)
    requires t.request.Some? && Tx.SubmitFile(t, data).Done?
    ensures
      var u := Tx.SubmitFile(t, data).tx;
      && u.out == Tx.DataFrame(t.request.value.offset, data, if Tx.ClosesFrame(t, data) then ZCRCW else ZCRCG, t.needsHeader)
      && TxRuns.SamePace(t, u) && !u.needsHeader && t.out == []
  {
    hide Tx.DataFrame, Tx.ClosesFrame, Tx.DivCeil;
  }

  lemma ReadFlows(s: Tx.TxState, data: seq<byte>, ns: seq<Note>, bufferLen: nat)
    requires Tx.Inv(s) && s.request.Some? && Tx.SubmitFile(s, data).Done? && Flows(s, ns, bufferLen)
    ensures Flows(Tx.SubmitFile(s, data).tx, ns, bufferLen)
  {
    hide Tx.SubmitFile, Tx.Inv, Tx.DataFrame, Unanswered, Paused, Within, Carrying, Tx.ClosesFrame;
    var u := Tx.SubmitFile(s, data).tx;
    SubmitOut(s, data);
    Pacing.SubmitShape(s, data);
    Pacing.RequestLen(s);
    TxRuns.RequestPhase(s);
    NoOuts(ns);
    Pacing.OneMore(s.frameRemaining - 1, s.maxSubpacket);
    FrameOut(ns, s.request.value.offset, data, if Tx.ClosesFrame(s, data) then ZCRCW else ZCRCG, s.needsHeader, bufferLen);
    SubmitPhase(s, data);
  }

  lemma SubmitPhase(t: Tx.TxState, data: seq<byte>)
    requires Tx.Inv(t) && t.request.Some? && Tx.SubmitFile(t, data).Done?
    ensures Tx.SubmitFile(t, data).tx.phase != Tx.WaitReceiverInit
  {
    hide Tx.DataFrame, Tx.ClosesFrame, Tx.DivCeil, Tx.WireOf;
  }

  /** A step that puts out nothing but plain messages and opens no frame. */
  predicate Idle(s: Tx.TxState, t: Tx.TxState)
  {
    && t.perAck == s.perAck && t.maxSubpacket == s.maxSubpacket && t.nonstop == s.nonstop
    && (t.phase == s.phase || s.phase != Tx.WaitReceiverInit)
    && (t.request.Some? ==> t.request == s.request && t.frameRemaining == s.frameRemaining
                            && t.needsHeader == s.needsHeader && t.out == s.out)
    && (t.out == s.out || (s.out == [] && Plain(t.out)))
  }

  lemma IdleFlows(s: Tx.TxState, t: Tx.TxState, ns: seq<Note>, bufferLen: nat)
    requires Flows(s, ns, bufferLen) && Idle(s, t)
    ensures Flows(t, ns, bufferLen)
  {
    hide Unanswered, Paused, Within, Carrying, Outs, Plain;
    if t.out != s.out {
      NoOuts(ns);
      PlainOut(ns, t.out, bufferLen);
    }
  }

  lemma FlushFlows(s: Tx.TxState, ns: seq<Note>, bufferLen: nat)
    requires Flows(s, ns, bufferLen)
    ensures Flows(Tx.WireWritten(s, |s.WireBytes()|), ns + Outs(s.out), bufferLen)
  {
    hide Unanswered, Paused, Within, Carrying, Outs, Tx.WireOf;
    NoOuts(ns + Outs(s.out));
  }

  lemma StartIdle(s: Tx.TxState, name: seq<byte>, size: Option<u32>)
    requires s.out == []
    ensures Idle(s, Tx.StartFile(s, name, size).tx)
  {
    hide Metadata, Sealed;
  }

  lemma FinishIdle(s: Tx.TxState)
    requires s.out == [] && (s.request.Some? ==> s.phase == Tx.NeedFileData)
    ensures Idle(s, Tx.Finish(s).tx)
  {
  }

  lemma TimerIdle(s: Tx.TxState, n: nat)
    requires s.request.Some? ==> s.phase == Tx.NeedFileData
    ensures Idle(s, Tx.Timeout(s).tx) && Idle(s, Tx.PopEvent(s))
    ensures !s.nonstop ==> Idle(s, Tx.SetStreamingWindow(s, n))
  {
  }

  lemma DrivenFlows(y: Sys, ns: seq<Note>, bufferLen: nat)
    requires Inv(y) && Enabled(y, TxNext) && Flows(y.s, ns, bufferLen)
    ensures Flows(Next(y, TxNext).s, ns, bufferLen)
  {
    hide Tx.Inv, Rx.Inv, Lawful, Flows, Idle, Tx.StartFile, Tx.Finish;
    TxRuns.RequestPhase(y.s);
    if y.next < |y.files| {
      var f := y.files[y.next];
      var size := if |f.content| < 0x1_0000_0000 then Some(|f.content| as u32) else None;
      StartIdle(y.s, f.name, size);
    } else {
      FinishIdle(y.s);
    }
    IdleFlows(y.s, Next(y, TxNext).s, ns, bufferLen);
  }

  lemma ReadStepFlows(y: Sys, n: nat, ns: seq<Note>, bufferLen: nat)
    requires Inv(y) && Enabled(y, TxRead(n)) && Flows(y.s, ns, bufferLen)
    ensures Flows(Next(y, TxRead(n)).s, ns, bufferLen)
  {
    hide Tx.Inv, Rx.Inv, Lawful, Flows, Tx.SubmitFile, Stretch;
    var data := Stretch(y.Current(), y.s.request.value.offset, n);
    TxInvariant.SubmitFileInv(y.s, data);
    if Tx.SubmitFile(y.s, data).Done? {
      ReadFlows(y.s, data, ns, bufferLen);
    }
  }

  lemma StepFlows(y: Sys, a: Act, ns: seq<Note>)
    requires Inv(y) && Enabled(y, a) && Flows(y.s, ns, y.r.bufferLen) && y.r.bufferLen > 0
    ensures Flows(Next(y, a).s, ns + Notes(y, a), y.r.bufferLen)
  {
    hide Inv, Idle, Tx.Feed, Rx.Feed, Fits, Driven, Read, Outs, HeaderCore, Tx.SetStreamingWindow, Tx.Timeout;
    var b := y.r.bufferLen;
    assert ns + [] == ns;
    RequestPhase(y);
    match a {
      case TxFlush => FlushFlows(y.s, ns, b);
      case TxRead(n) => ReadStepFlows(y, n, ns, b);
      case TxNext => DrivenFlows(y, ns, b);
      case TxRecv => AnswerFlows(y, ns);
      case TxEvent => TimerIdle(y.s, 0); IdleFlows(y.s, Tx.PopEvent(y.s), ns, b);
      case TxTick => TimerIdle(y.s, 0); IdleFlows(y.s, Tx.Timeout(y.s).tx, ns, b);
      case TxWindow(n) => TimerIdle(y.s, n); IdleFlows(y.s, Tx.SetStreamingWindow(y.s, n), ns, b);
      case RxFlush =>
      case RxWrite(n) =>
      case RxEvent =>
      case RxRecv =>
      case RxTick =>
      case RxAccept(offset) =>
      case RxSkip =>
      case Corrupt(sub) =>
    }
  }

  lemma RequestPhase(y: Sys)
    requires Inv(y)
    ensures y.s.request.Some? ==> y.s.phase == Tx.NeedFileData
  {
    hide Tx.Inv, Rx.Inv, Lawful;
    TxRuns.RequestPhase(y.s);
  }

  // ---------------------------------------------------------------------
  // Main result
  // ---------------------------------------------------------------------

  lemma {:induction false} RunFlows(y: Sys, ns: seq<Note>, acts: seq<Act>)
    requires Inv(y) && Possible(y, acts) && Flows(y.s, ns, y.r.bufferLen) && y.r.bufferLen > 0
    ensures Flows(Run(y, acts).s, ns + History(y, acts), y.r.bufferLen)
    decreases |acts|
  {
    hide Inv, Enabled, Next, Notes, Flows;
    if acts == [] {
      assert ns + [] == ns;
    } else {
      var a := acts[0];
      var z := Next(y, a);
      StepFlows(y, a, ns);
      StepInv(y, a);
      StepKeeps(y, a);
      RunFlows(z, ns + Notes(y, a), acts[1..]);
      assert (ns + Notes(y, a)) + History(z, acts[1..]) == ns + (Notes(y, a) + History(z, acts[1..]));
    }
  }

  lemma StartFlows(files: seq<File>, c: Setup)
    requires Startable(files, c)
    ensures Flows(Launch(files, c).s, [], c.bufferLen) && Launch(files, c).r.bufferLen == c.bufferLen
  {
    hide Launch, Unanswered, Paused, Within, Carrying, Outs, Rx.ZrinitHeader;
    StartShape(files, c);
    NoWindow(files, c);
    NothingOut(c.bufferLen);
    PlainOut([], [ZRQINIT_MSG], c.bufferLen);
  }

  lemma NoWindow(files: seq<File>, c: Setup)
    requires Startable(files, c)
    ensures
      var s := Launch(files, c).s;
      !s.nonstop && s.request.None?
  {
    hide Rx.ZrinitHeader;
  }

  lemma NothingOut(most: nat)
    ensures Unanswered([]) == 0 && Paused([]) && Within([], most)
  {
  }

  /** The file bytes in a stretch of history. */
  function Payload(ns: seq<Note>): nat
  {
    if ns == [] then 0
    else
      Payload(ns[..|ns| - 1]) +
      (if ns[|ns| - 1].Out? && ns[|ns| - 1].m.Data? then |ns[|ns| - 1].m.sub.data| else 0)
  }

  /** A ZDATA at `i`, and nothing but subpackets from there to `j`. */
  predicate FrameAt(ns: seq<Note>, i: nat, j: nat)
  {
    i < j <= |ns| && IsZdata(ns[i]) && forall k :: i < k < j ==> ns[k].Out? && ns[k].m.Data?
  }

  lemma {:induction false} FramePayload(ns: seq<Note>, i: nat, j: nat)
    requires Paused(ns) && FrameAt(ns, i, j)
    ensures Unanswered(ns[..j]) == Payload(ns[i + 1..j]) && Carrying(ns[..j])
    decreases j
  {
    hide Unanswered, Carrying;
    var before, n := ns[..j - 1], ns[j - 1];
    assert ns[..j] == before + [n];
    Grown(before, n);
    if j == i + 1 {
      assert before == ns[..i];
    } else {
      FramePayload(ns, i, j - 1);
      assert ns[i + 1..j][..j - i - 2] == ns[i + 1..j - 1];
    }
  }

  /** Flow control, agreed on through the four bytes of a ZRINIT alone. On every run from
      the start, for any files and set-up, with damage, timers and changes of the window
      anywhere, as long as the receiver's buffer length is not zero: at no point have more
      file bytes gone out since the last answer was taken than that buffer holds, and a
      ZDATA goes out only with nothing unanswered. */
  lemma FlowControl(files: seq<File>, c: Setup, acts: seq<Act>)
    requires Startable(files, c) && Possible(Launch(files, c), acts)
    requires Run(Launch(files, c), acts).r.bufferLen > 0
    ensures
      var ns := History(Launch(files, c), acts);
      Within(ns, Run(Launch(files, c), acts).r.bufferLen) && Paused(ns)
  {
    hide Launch, Inv, Enabled, Next, History, Unanswered, Paused, Within, Carrying, Outs;
    var y := Launch(files, c);
    StartInv(files, c);
    StartFlows(files, c);
    RunInv(y, acts);
    RunFlows(y, [], acts);
    var ns := History(y, acts);
    assert [] + ns == ns;
    Begins(ns, Outs(Run(y, acts).s.out), c.bufferLen);
  }

  /** So what one frame carries, from its ZDATA to any of its subpackets, the closing one
      included, fits the buffer the receiver was set up with. */
  lemma FrameFitsBuffer(files: seq<File>, c: Setup, acts: seq<Act>, i: nat, j: nat)
    requires Startable(files, c) && Possible(Launch(files, c), acts) && c.bufferLen > 0
    requires FrameAt(History(Launch(files, c), acts), i, j)
    ensures Payload(History(Launch(files, c), acts)[i + 1..j]) <= c.bufferLen
  {
    hide Launch, Inv, Enabled, Next, History, Unanswered, Paused, Carrying;
    var y := Launch(files, c);
    StartInv(files, c);
    StartFlows(files, c);
    RunInv(y, acts);
    FlowControl(files, c, acts);
    FramePayload(History(y, acts), i, j);
  }
}
