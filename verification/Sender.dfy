/** The sender as the crate has it: an object over fixed buffers, proved to do what
    its specification as a value says. */
module SenderMachine {
  import opened Primitives
  import opened Buffers
  import opened HeaderCodec
  import opened HeaderReading
  import opened Subpackets
  import opened FileMetadata
  import opened SenderSpec
  import opened SenderInvariant
  import opened SenderFrames
  import opened SenderAnswers
  import opened SenderPacing
  import opened Negotiation

  /** A method's answer and the state it leaves are the ones the specification gives. */
  ghost predicate Did(p: Reply, v: TxState, r: Result<()>)
  {
    v == p.tx && r == if p.Done? then Ok(()) else Err(p.error)
  }

  /** The answer of a poll. */
  datatype Action =
    | Happened(event: SenderEvent)
    | WriteWire(bytes: seq<byte>)
    | ReadFile(offset: u32, maxLen: nat)
    | Idle

  function NextAction(t: TxState): Action
  {
    if t.event.Some? then Happened(t.event.value)
    else if t.WireBytes() != [] then WriteWire(t.WireBytes())
    else if t.request.Some? then ReadFile(t.request.value.offset, t.request.value.len)
    else Action.Idle
  }

  class Sender {
    var state: SenderPhase
    const fileName: Buffer
    var fileSize: u32
    var hasFile: bool
    var pendingRequest: Option<FileRequest>
    var frameRemaining: nat
    var frameNeedsHeader: bool
    var maxSubpacketSize: nat
    var maxSubpacketsPerAck: nat
    const buf: Buffer
    const outgoing: Buffer
    var outgoingOffset: nat
    const headerReader: HeaderReader
    var pendingEvent: Option<SenderEvent>
    var finishRequested: bool
    var streamingWindow: nat
    var rxNonstop: bool

    /** What all of the above stands for; `buf` is scratch space. */
    ghost var view: TxState

    ghost function Repr(): set<object>
    {
      {this, fileName, fileName.bytes, buf, buf.bytes, headerReader, headerReader.buf, headerReader.buf.bytes,
       outgoing, outgoing.bytes}
    }

    /** The parts are objects of their own. */
    ghost predicate Separate()
    {
      && fileName != buf && fileName != outgoing && fileName != headerReader.buf
      && buf != outgoing && buf != headerReader.buf && outgoing != headerReader.buf
      && fileName.bytes != buf.bytes && fileName.bytes != outgoing.bytes && fileName.bytes != headerReader.buf.bytes
      && buf.bytes != outgoing.bytes && buf.bytes != headerReader.buf.bytes
      && outgoing.bytes != headerReader.buf.bytes
    }

    ghost predicate Valid()
      reads Repr()
    {
      && Separate() && Scalars()
      && fileName.Holds(NAME_CAP, view.fileName)
      && buf.Valid() && buf.capacity == SUBPACKET_MAX_SIZE
      && headerReader.Holds(view.reader)
      && OutgoingHolds(view.out, view.sent)
    }

    ghost predicate Scalars()
      reads this
    {
      && state == view.phase && fileSize == view.fileSize && hasFile == view.hasFile
      && pendingRequest == view.request && frameRemaining == view.frameRemaining
      && frameNeedsHeader == view.needsHeader && maxSubpacketSize == view.maxSubpacket
      && maxSubpacketsPerAck == view.perAck && pendingEvent == view.event
      && finishRequested == view.finishRequested && streamingWindow == view.window && rxNonstop == view.nonstop
    }

    /** What is left of `outgoing` is the tail of the messages queued, never empty;
        and an `outgoing` with nothing left is cleared. */
    ghost predicate OutgoingHolds(out: seq<Msg>, sent: nat)
      reads this`outgoingOffset, outgoing, outgoing.bytes
    {
      && outgoing.Holds(WIRE_BUF_SIZE, WireOf(out))
      && outgoingOffset == sent
      && if out == [] then sent == 0 else sent < outgoing.len
    }

    /** The bytes that are still to be written out. */
    ghost function Outgoing(): seq<byte>
      reads this`outgoingOffset, outgoing, outgoing.bytes
    {
      if outgoingOffset <= outgoing.len <= outgoing.bytes.Length then outgoing.bytes[outgoingOffset..outgoing.len] else []
    }

    lemma OutgoingIs()
      requires Valid()
      ensures Outgoing() == view.WireBytes()
    {
      hide HeaderReader.Holds, WireOf;
    }

    /** A run of bytes that broke left a ZNAK to be written out. */
    lemma BreakOffers(start: TxState, input: seq<byte>)
      requires Valid() && Inv(start) && Feed(start, input).Broken? && Feed(start, input).tx == view
      ensures Outgoing() == EncHeader(Header(ZHEX, ZNAK, [0, 0, 0, 0]))
    {
      hide Valid, Inv, Feed, EncHeader, Outgoing;
      BreakAnswered(start, input);
      OutgoingIs();
    }

    // -------------------------------------------------------------------
    // Construction
    // -------------------------------------------------------------------

    /** Everything at its start value, and nothing to send yet. */
    constructor ()
      ensures Valid() && view == Initial().(out := [])
      ensures fresh(fileName) && fresh(fileName.bytes) && fresh(buf) && fresh(buf.bytes)
      ensures fresh(headerReader) && fresh(headerReader.buf) && fresh(headerReader.buf.bytes)
      ensures fresh(outgoing) && fresh(outgoing.bytes)
    {
      hide HeaderReader.Holds, Buffer.Holds;
      var name := new Buffer(NAME_CAP);
      var scratch := new Buffer(SUBPACKET_MAX_SIZE);
      var out := new Buffer(WIRE_BUF_SIZE);
      assert name != scratch && name != out && scratch != out;
      assert name.bytes != scratch.bytes && name.bytes != out.bytes && scratch.bytes != out.bytes;
      var reader := new HeaderReader();
      assert reader.buf !in {name, scratch, out} && reader.buf.bytes !in {name.bytes, scratch.bytes, out.bytes};
      fileName, buf, outgoing, headerReader := name, scratch, out, reader;
      state, fileSize, hasFile, pendingRequest := WaitReceiverInit, 0, false, None;
      frameRemaining, frameNeedsHeader := 0, false;
      maxSubpacketSize, maxSubpacketsPerAck := SUBPACKET_MAX_SIZE, SUBPACKET_PER_ACK;
      outgoingOffset, pendingEvent, finishRequested := 0, None, false;
      streamingWindow, rxNonstop := SUBPACKET_PER_ACK, false;
      view := Initial().(out := []);
      new;
      assert Separate();
      assert Scalars();
    }

    /** A sender with its ZRQINIT queued. */
    static method Create() returns (sender: Sender)
      ensures sender.Valid() && fresh(sender.Repr()) && sender.view == Initial() && Inv(sender.view)
    {
      hide Sender.Valid, Inv;
      sender := new Sender();
      var _ := sender.QueueHeader(ZRQINIT_HEADER);
      InitialInv();
    }

    // -------------------------------------------------------------------
    // Queueing
    // -------------------------------------------------------------------

    /** Something is left to write exactly while something is queued. */
    lemma OutgoingLeft()
      requires Valid()
      ensures outgoingOffset < outgoing.len <==> view.out != []
    {
      hide HeaderReader.Holds, WireOf, Separate;
      NoMsgs();
    }

    /** Every header fits the outgoing buffer, so the one refusal is backpressure. */
    method QueueHeader(h: Header) returns (r: Result<()>)
      requires Valid()
      modifies this`view, outgoing, outgoing.bytes
      ensures Valid() && Did(Queue(old(view), [Head(h)]), view, r)
    {
      hide Buffer.Holds, HeaderReader.Holds, EncHeader, WireOf;
      NoMsgs();
      OutgoingLeft();
      if outgoingOffset < outgoing.len {
        return Err(Backpressure);
      }
      OneMsg(Head(h));
      FillWithHeader(outgoing, h);
      view := view.(out := [Head(h)], sent := 0);
      return Ok(());
    }

    /** Announces the file on record; called with nothing else to send. */
    method QueueZfile() returns (r: Result<()>)
      requires Valid() && |view.fileName| <= NAME_CAP && view.out == []
      modifies Repr()
      ensures Valid() && Did(SenderSpec.QueueZfile(old(view)), view, r)
    {
      hide HeaderReader.Holds, EncZfile, WireOf, Metadata, ZfileFrame;
      var name := Name();
      ZfileFits(name, fileSize);
      ZfileBytes(name, fileSize);
      NoMsgs();
      var w := WriteZfile(outgoing, buf, name, fileSize);
      view := view.(out := ZfileFrame(name, fileSize), sent := 0);
      assert [] + EncZfile(name, fileSize)[..|EncZfile(name, fileSize)|] == EncZfile(name, fileSize);
      return Ok(());
    }

    method Name() returns (name: seq<byte>)
      requires Valid()
      ensures name == view.fileName
    {
      hide HeaderReader.Holds, WireOf;
      name := fileName.bytes[..fileName.len];
    }

    /** A ZDATA header if the frame needs one, then the subpacket. */
    method QueueZdata(offset: u32, data: seq<byte>, kind: SubpacketType, header: bool) returns (r: Result<()>)
      requires Valid() && |data| <= SUBPACKET_MAX_SIZE
      modifies Repr()
      ensures Valid() && Did(Queue(old(view), DataFrame(offset, data, kind, header)), view, r)
    {
      hide HeaderReader.Holds, EncHeader, EncSubpacket, WireOf, Header.WithCount, DataFrame;
      NoMsgs();
      if outgoingOffset < outgoing.len {
        return Err(Backpressure);
      }
      DataFits(offset, data, kind, header);
      assert outgoing.Contents() == [];
      WriteZdata(offset, data, kind, header);
      FrameNotEmpty(offset, data, kind, header);
      view := view.(out := DataFrame(offset, data, kind, header), sent := 0);
      return Ok(());
    }

    method WriteZdata(offset: u32, data: seq<byte>, kind: SubpacketType, header: bool)
      requires outgoing.Valid() && outgoing.Contents() == [] && outgoing.capacity == WIRE_BUF_SIZE
      requires |WireOf(DataFrame(offset, data, kind, header))| <= WIRE_BUF_SIZE
      modifies outgoing`len, outgoing.bytes
      ensures outgoing.Holds(WIRE_BUF_SIZE, WireOf(DataFrame(offset, data, kind, header)))
    {
      hide EncHeader, EncSubpacket, WireOf, Header.WithCount, DataFrame;
      ghost var d := EncSubpacket(ZBIN32, kind, data);
      DataBytes(offset, data, kind, header);
      if header {
        ghost var h := EncHeader(ZDATA_HEADER.WithCount(offset));
        var all := WriteHeader(outgoing, ZDATA_HEADER.WithCount(offset));
        assert [] + h[..|h|] == h;
        assert outgoing.Contents() == h;
        var w := WriteSubpacket(outgoing, ZBIN32, kind, data);
        assert d[..|d|] == d;
      } else {
        var w := WriteSubpacket(outgoing, ZBIN32, kind, data);
        assert [] + d[..|d|] == d;
      }
    }

    method QueueOo() returns (r: Result<()>)
      requires Valid()
      modifies Repr()
      ensures Valid() && Did(Queue(old(view), [Over]), view, r)
    {
      hide HeaderReader.Holds, WireOf;
      NoMsgs();
      if outgoingOffset < outgoing.len {
        return Err(Backpressure);
      }
      OverFits();
      var all := WriteByte(outgoing, 0x4F);
      assert [0x4F][..1] == [0x4F];
      all := WriteByte(outgoing, 0x4F);
      assert [0x4F] + [0x4F] == OO;
      view := view.(out := [Over], sent := 0);
      return Ok(());
    }

    // -------------------------------------------------------------------
    // Headers
    // -------------------------------------------------------------------

    method Enter(phase: SenderPhase)
      requires Valid()
      modifies this`state, this`view
      ensures Valid() && view == old(view).(phase := phase)
    {
      hide Buffer.Holds, HeaderReader.Holds, OutgoingHolds;
      state := phase;
      view := view.(phase := phase);
    }

    method Notify(event: SenderEvent)
      requires Valid()
      modifies this`pendingEvent, this`view
      ensures Valid() && view == old(view).(event := Some(event))
    {
      hide Buffer.Holds, HeaderReader.Holds, OutgoingHolds;
      pendingEvent := Some(event);
      view := view.(event := Some(event));
    }

    /** Reads the pacing out of a ZRINIT. */
    method UpdateReceiverCaps(h: Header)
      requires Valid()
      modifies this
      ensures Valid() && view == UpdateCaps(old(view), h)
      ensures forall bufferLen, overlap :: Says(h.flags, bufferLen, overlap) && bufferLen >= 0 ==>
                && Pace(bufferLen, overlap, old(view).window, view.maxSubpacket, view.perAck)
                && (view.nonstop <==> bufferLen == 0 && overlap)
    {
      hide Valid, Pace;
      CapsCalledFor(view, h);
      var rxBufSize := BufferLenOf(h);
      var canOvio := OverlapOf(h);
      if rxBufSize == 0 {
        SetPacing(canOvio, SUBPACKET_MAX_SIZE, 1);
        if canOvio {
          UseWindow();
        }
        return;
      }
      var maxSize := Min(SUBPACKET_MAX_SIZE, rxBufSize);
      if !canOvio {
        SetPacing(false, maxSize, 1);
        return;
      }
      var subpackets := rxBufSize / maxSize;
      SetPacing(false, maxSize, if subpackets == 0 then 1 else subpackets);
    }

    method SetPacing(nonstop: bool, maxSize: nat, perAck: nat)
      requires Valid()
      modifies this`rxNonstop, this`maxSubpacketSize, this`maxSubpacketsPerAck, this`view
      ensures Valid() && view == old(view).(nonstop := nonstop, maxSubpacket := maxSize, perAck := perAck)
    {
      hide Separate, Buffer.Holds, HeaderReader.Holds, OutgoingHolds;
      rxNonstop := nonstop;
      maxSubpacketSize := maxSize;
      maxSubpacketsPerAck := perAck;
      view := view.(nonstop := nonstop, maxSubpacket := maxSize, perAck := perAck);
    }

    method UseWindow()
      requires Valid()
      modifies this`maxSubpacketsPerAck, this`view
      ensures Valid() && view == old(view).(perAck := old(view).window)
    {
      hide Buffer.Holds, HeaderReader.Holds, OutgoingHolds;
      maxSubpacketsPerAck := streamingWindow;
      view := view.(perAck := streamingWindow);
    }

    method OnZrinit(h: Header) returns (r: Result<()>)
      requires Valid() && Inv(view) && !view.Blocked()
      modifies Repr()
      ensures Valid() && Did(SenderSpec.OnZrinit(old(view), h), view, r)
    {
      hide Buffer.Holds, HeaderReader.Holds, OutgoingHolds, UpdateCaps, Inv, SenderSpec.EndSession, ZfileFrame;
      CapsOnly(view, h);
      UpdateCapsInv(view, h);
      UpdateReceiverCaps(h);
      if state == WaitReceiverInit {
        r := OnFirstZrinit();
      } else if state == WaitFileDone {
        r := OnFileDone();
      } else if state == WaitFinish {
        r := EndSession();
      } else {
        r := Ok(());
      }
    }

    /** The receiver is there: announce the file if there is one already. */
    method OnFirstZrinit() returns (r: Result<()>)
      requires Valid() && Inv(view) && view.out == []
      modifies Repr()
      ensures Valid()
      ensures
        var c := old(view);
        var p :=
          if c.hasFile then
            var q := SenderSpec.QueueZfile(c);
            if q.Done? then Done(q.tx.(phase := WaitFilePos)) else q
          else if c.finishRequested then
            var q := Queue(c.(phase := ReadyForFile), [Head(ZFIN_HEADER)]);
            if q.Done? then Done(q.tx.(phase := WaitFinish)) else q
          else Done(c.(phase := ReadyForFile));
        Did(p, view, r)
    {
      hide Buffer.Holds, HeaderReader.Holds, OutgoingHolds, Inv, ZfileFrame;
      NameFits(view);
      if hasFile {
        r := QueueZfile();
        if r.Ok? {
          Enter(WaitFilePos);
        }
        return;
      }
      Enter(ReadyForFile);
      r := Ok(());
      if finishRequested {
        r := QueueHeader(ZFIN_HEADER);
        if r.Ok? {
          Enter(WaitFinish);
        }
      }
    }

    /** The receiver has the whole file. */
    method OnFileDone() returns (r: Result<()>)
      requires Valid()
      modifies Repr()
      ensures Valid()
      ensures
        var d := old(view).(event := Some(FileCompleted), hasFile := false);
        var p :=
          if d.finishRequested then
            var q := Queue(d, [Head(ZFIN_HEADER)]);
            if q.Done? then Done(q.tx.(phase := WaitFinish)) else q
          else Done(d.(phase := ReadyForFile));
        Did(p, view, r)
    {
      hide Buffer.Holds, HeaderReader.Holds, OutgoingHolds;
      pendingEvent := Some(FileCompleted);
      hasFile := false;
      view := view.(event := Some(FileCompleted), hasFile := false);
      if finishRequested {
        r := QueueHeader(ZFIN_HEADER);
        if r.Ok? {
          Enter(WaitFinish);
        }
      } else {
        Enter(ReadyForFile);
        r := Ok(());
      }
    }

    method EndSession() returns (r: Result<()>)
      requires Valid()
      modifies Repr()
      ensures Valid() && Did(SenderSpec.EndSession(old(view)), view, r)
    {
      hide Valid;
      r := QueueOo();
      if r.Ok? {
        Enter(Finished);
        Notify(SessionCompleted);
      }
    }

    /** ZRPOS and ZACK: go on from an offset, or say that the file ends there. */
    method OnZrpos(offset: u32) returns (r: Result<()>)
      requires Valid() && Inv(view)
      modifies Repr()
      ensures Valid() && Did(SenderSpec.OnZrpos(old(view), offset), view, r)
    {
      hide Buffer.Holds, HeaderReader.Holds, OutgoingHolds, Inv, SenderSpec.OpenFrame, Header.WithCount;
      r := Ok(());
      if state == WaitReceiverInit {
        r := QueueHeader(ZRQINIT_HEADER);
      } else if state == WaitFilePos || state == WaitFileAck || state == NeedFileData {
        if offset >= fileSize {
          r := QueueHeader(ZEOF_HEADER.WithCount(offset));
          if r.Ok? {
            Enter(WaitFileDone);
            DropRequest();
          }
        } else {
          OpenFrame(offset);
        }
      }
    }

    method DropRequest()
      requires Valid()
      modifies this`pendingRequest, this`view
      ensures Valid() && view == old(view).(request := None)
    {
      hide Buffer.Holds, HeaderReader.Holds, OutgoingHolds;
      pendingRequest := None;
      view := view.(request := None);
    }

    method OpenFrame(offset: u32)
      requires Valid() && Inv(view) && offset < view.fileSize
      modifies this`frameRemaining, this`frameNeedsHeader, this`pendingRequest, this`state, this`view
      ensures Valid() && view == SenderSpec.OpenFrame(old(view), offset)
    {
      hide Separate, Buffer.Holds, HeaderReader.Holds, OutgoingHolds, DivCeil, WireOf;
      var remaining := fileSize - offset;
      var maxSubpackets := DivCeil(remaining, maxSubpacketSize);
      frameRemaining := Min(maxSubpacketsPerAck, maxSubpackets);
      frameNeedsHeader := true;
      var len := Min(maxSubpacketSize, remaining);
      pendingRequest := Some(FileRequest(offset, len));
      state := NeedFileData;
      view := SenderSpec.OpenFrame(view, offset);
    }

    method OnZskip()
      requires Valid()
      modifies this
      ensures Valid() && view == SenderSpec.OnZskip(old(view))
    {
      hide Buffer.Holds, HeaderReader.Holds, OutgoingHolds;
      if state == WaitFilePos || state == NeedFileData || state == WaitFileAck || state == WaitFileDone {
        DropFile();
      }
    }

    method DropFile()
      requires Valid()
      modifies this
      ensures Valid()
      ensures view == old(view).(hasFile := false, request := None, frameRemaining := 0,
                        event := Some(FileCompleted), phase := ReadyForFile)
    {
      hide Valid;
      DropRequest();
      ReportDone();
    }

    method ReportDone()
      requires Valid()
      modifies this`hasFile, this`frameRemaining, this`pendingEvent, this`state, this`view
      ensures Valid()
      ensures view == old(view).(hasFile := false, frameRemaining := 0, event := Some(FileCompleted), phase := ReadyForFile)
    {
      hide Separate, Buffer.Holds, HeaderReader.Holds, OutgoingHolds;
      hasFile := false;
      frameRemaining := 0;
      pendingEvent := Some(FileCompleted);
      state := ReadyForFile;
      view := view.(hasFile := false, frameRemaining := 0, event := Some(FileCompleted), phase := ReadyForFile);
    }

    method Abort()
      requires Valid()
      modifies Repr()
      ensures Valid() && view == SenderSpec.Abort(old(view))
      ensures old(Inv(view)) ==> Inv(view)
    {
      hide Buffer.Holds, HeaderReader.Holds, OutgoingHolds, Inv;
      if old(Inv(view)) {
        AbortInv(view);
      }
      state := Finished;
      pendingRequest := None;
      pendingEvent := Some(Stopped);
      view := SenderSpec.Abort(view);
    }

    method HandleHeader(h: Header) returns (r: Result<()>)
      requires Valid() && Inv(view) && !view.Blocked()
      modifies Repr()
      ensures Valid() && Did(SenderSpec.HandleHeader(old(view), h), view, r)
    {
      hide Buffer.Holds, HeaderReader.Holds, OutgoingHolds, Inv, Header.Count;
      hide SenderSpec.OnZrinit, SenderSpec.OnZrpos, SenderSpec.OnZskip, SenderSpec.Abort, SenderSpec.EndSession;
      r := Ok(());
      if h.frame == ZRINIT {
        r := OnZrinit(h);
      } else if h.frame == ZRPOS || h.frame == ZACK {
        r := OnZrpos(h.Count());
      } else if h.frame == ZSKIP {
        OnZskip();
      } else if h.frame == ZABORT || h.frame == ZCAN {
        Abort();
      } else if h.frame == ZFIN {
        if state == WaitFinish {
          r := EndSession();
        }
      } else if state == WaitReceiverInit {
        r := QueueHeader(ZRQINIT_HEADER);
      }
    }

    // -------------------------------------------------------------------
    // Wire input
    // -------------------------------------------------------------------

    method Blocked() returns (b: bool)
      requires Valid()
      ensures b == view.Blocked()
    {
      hide HeaderReader.Holds, WireOf;
      NoMsgs();
      b := outgoingOffset < outgoing.len || state == Finished || pendingRequest.Some?;
    }

    method ReadHeader(port: SliceReader) returns (out: Outcome)
      requires Valid() && port.Valid() && port !in Repr()
      modifies Repr(), port
      ensures Valid() && port.Valid() && old(port.pos) <= port.pos
      ensures
        var a := ReadChunk(old(view).reader, old(port.Rest()));
        port.pos == old(port.pos) + a.taken && view == old(view).(reader := a.reader) && out == a.outcome
    {
      hide Buffer.Holds, OutgoingHolds, ReadChunk;
      ghost var a := ReadChunk(view.reader, port.Rest());
      out := headerReader.Read(port);
      view := view.(reader := a.reader);
    }

    /** Reads on for a header; malformed framing is answered with a ZNAK. */
    method ProcessHeader(port: SliceReader) returns (out: Outcome)
      requires Valid() && port.Valid() && port !in Repr() && Inv(view) && !view.Blocked()
      modifies Repr(), port
      ensures Valid() && port.Valid() && old(port.pos) <= port.pos
      ensures old(port.pos) < |port.buf| ==> old(port.pos) < port.pos
      ensures Feed(old(view), port.buf[old(port.pos)..port.pos]) ==
              if out.Failed? then Broken(view, out.error) else Fed.Fed(view)
      ensures out.Nothing? ==> port.pos == |port.buf|
    {
      hide Valid, Feed, ReadChunk, SenderSpec.HandleHeader, Inv;
      ghost var before, from := view, port.pos;
      HeaderTurn(before, port.buf[from..]);
      out := ReadHeader(port);
      assert port.buf[from..][..port.pos - from] == port.buf[from..port.pos];
      ReaderInv(before, view.reader);
      ChunkWf(before.reader, port.buf[from..]);
      if out.Failed? {
        var _ := QueueHeader(ZNAK_HEADER);
      } else if out.Got? {
        HandleHeaderInv(view, out.header);
        var _ := HandleHeader(out.header);
      }
    }

    /** Submits wire input and says how much of it was taken. The bytes taken act
        one by one as the specification has it; if any can be taken, some are; and
        the invariant holds after, whether there was an error or not. */
    method SubmitWire(input: seq<byte>) returns (res: Result<nat>)
      requires Valid() && Inv(view)
      modifies Repr()
      ensures Valid() && Inv(view)
      ensures res.Ok? ==> res.value <= |input| && Feed(old(view), input[..res.value]) == Fed.Fed(view)
      ensures res.Ok? && !old(view).Blocked() && input != [] ==> res.value > 0
      ensures res.Ok? ==> res.value == |input| || view.Blocked()
      ensures res.Err? ==> Feed(old(view), input) == Broken(view, res.error)
      ensures res.Err? ==> res.error != Backpressure && res.error != InvalidState
      ensures res.Err? ==> Outgoing() == EncHeader(Header(ZHEX, ZNAK, [0, 0, 0, 0]))
    {
      hide Valid, Inv, Feed, TxState.Blocked, Outgoing, EncHeader;
      var reader := new SliceReader(input);
      ghost var start := view;
      NothingFed(start, input, 0);
      while true
        invariant Valid() && reader.Valid() && fresh(reader) && reader !in Repr() && reader.buf == input
        invariant Inv(view) && Feed(start, input[..reader.pos]) == Fed.Fed(view)
        invariant reader.pos == 0 ==> view == start
        decreases |input| - reader.pos
      {
        var out, more := TakeTurn(reader, start);
        if out.Failed? {
          BrokenEarly(start, input, reader.pos);
          BreakOffers(start, input);
          return Err(out.error);
        }
        if !more {
          return Ok(reader.pos);
        }
      }
    }

    /** One turn of the loop above: whether the loop goes on, or the error. */
    method TakeTurn(port: SliceReader, ghost start: TxState) returns (out: Outcome, more: bool)
      requires Valid() && port.Valid() && port !in Repr() && Inv(view)
      requires Feed(start, port.buf[..port.pos]) == Fed.Fed(view)
      modifies Repr(), port
      ensures Valid() && port.Valid() && Inv(view) && old(port.pos) <= port.pos
      ensures !old(view).Blocked() && old(port.pos) < |port.buf| ==> old(port.pos) < port.pos
      ensures Feed(start, port.buf[..port.pos]) == if out.Failed? then Broken(view, out.error) else Fed.Fed(view)
      ensures out.Failed? ==> !Misuse(out.error)
      ensures more ==> old(port.pos) < port.pos
      ensures !more && !out.Failed? ==> port.pos == |port.buf| || view.Blocked()
    {
      hide Valid, Inv, Feed, TxState.Blocked;
      var from := port.pos;
      ghost var v := view;
      assert port.buf[0..from] == port.buf[..from];
      var blocked := Blocked();
      if blocked {
        return Nothing, false;
      }
      out := ProcessHeader(port);
      more := out.Got? && port.pos != from && port.pos != |port.buf|;
      TurnsJoin(start, port.buf, 0, from, port.pos);
      assert port.buf[0..port.pos] == port.buf[..port.pos];
      FeedInv(v, port.buf[from..port.pos]);
    }

    // -------------------------------------------------------------------
    // The caller's operations
    // -------------------------------------------------------------------

    /** Announces a file; refused without a size, mid-transfer, for a name that is
        too long, or while something waits to go out. */
    method StartFile(name: seq<byte>, size: Option<u32>) returns (r: Result<()>)
      requires Valid() && Inv(view)
      modifies Repr()
      ensures Valid() && Inv(view) && Did(SenderSpec.StartFile(old(view), name, size), view, r)
    {
      hide Buffer.Holds, HeaderReader.Holds, OutgoingHolds, Inv, ZfileFrame, SenderSpec.QueueZfile;
      StartFileInv(view, name, size);
      if size.None? {
        return Err(UnsupportedFeature);
      }
      if state != WaitReceiverInit && state != ReadyForFile {
        return Err(InvalidState);
      }
      ghost var before := view;
      r := SetFile(name, size.value);
      if r.Err? || state != ReadyForFile {
        return;
      }
      r := AnnounceFile();
    }

    method SetFile(name: seq<byte>, size: u32) returns (r: Result<()>)
      requires Valid()
      modifies Repr()
      ensures Valid() && r == if |name| <= NAME_CAP then Ok(()) else Err(OutOfMemory)
      ensures view == if r.Err? then old(view).(fileName := []) else WithFile(old(view), name, size)
    {
      hide Valid;
      r := SetFileName(name);
      if r.Ok? {
        SetFileSize(size);
      }
    }

    /** The name's buffer is sound and has its capacity. */
    lemma NameRoom()
      requires Valid()
      ensures fileName.Valid() && fileName.capacity == NAME_CAP
    {
      hide HeaderReader.Holds, OutgoingHolds;
    }

    method SetFileName(name: seq<byte>) returns (r: Result<()>)
      requires Valid()
      modifies this`view, fileName, fileName.bytes
      ensures Valid() && r == if |name| <= NAME_CAP then Ok(()) else Err(OutOfMemory)
      ensures view == old(view).(fileName := if r.Ok? then name else [])
    {
      hide Buffer.Holds, HeaderReader.Holds, OutgoingHolds;
      NameRoom();
      var ok := fileName.Replace(name);
      view := view.(fileName := if ok then name else []);
      return if ok then Ok(()) else Err(OutOfMemory);
    }

    method SetFileSize(size: u32)
      requires Valid()
      modifies this
      ensures Valid() && view == WithFile(old(view), old(view).fileName, size)
    {
      hide Separate, Buffer.Holds, HeaderReader.Holds, OutgoingHolds;
      DropRequest();
      fileSize := size;
      hasFile := true;
      frameRemaining := 0;
      frameNeedsHeader := false;
      view := WithFile(view, view.fileName, size);
    }

    method AnnounceFile() returns (r: Result<()>)
      requires Valid() && |view.fileName| <= NAME_CAP
      modifies Repr()
      ensures Valid()
      ensures
        var q := SenderSpec.QueueZfile(old(view));
        Did(if q.Done? then Done(q.tx.(phase := WaitFilePos)) else q, view, r)
    {
      hide Valid, ZfileFrame;
      var waiting := HasOutgoing();
      if waiting {
        return Err(Backpressure);
      }
      r := QueueZfile();
      Enter(WaitFilePos);
    }

    method HasOutgoing() returns (b: bool)
      requires Valid()
      ensures b == (view.out != [])
    {
      hide HeaderReader.Holds, WireOf;
      NoMsgs();
      b := outgoingOffset < outgoing.len;
    }

    /** Ends the session once no file is under way. */
    method Finish() returns (r: Result<()>)
      requires Valid() && Inv(view)
      modifies Repr()
      ensures Valid() && Inv(view) && Did(SenderSpec.Finish(old(view)), view, r)
    {
      hide Buffer.Holds, HeaderReader.Holds, OutgoingHolds, Inv;
      FinishInv(view);
      finishRequested := true;
      view := view.(finishRequested := true);
      r := Ok(());
      if state == ReadyForFile {
        r := QueueHeader(ZFIN_HEADER);
        if r.Ok? {
          Enter(WaitFinish);
        }
      }
    }

    /** Answers the pending request with a stretch of file data. */
    method SubmitFile(data: seq<byte>) returns (r: Result<()>)
      requires Valid() && Inv(view)
      modifies Repr()
      ensures Valid() && Inv(view) && Did(SenderSpec.SubmitFile(old(view), data), view, r)
    {
      hide Buffer.Holds, HeaderReader.Holds, OutgoingHolds, Inv, SenderSpec.Emit;
      SubmitFileInv(view, data);
      if state != NeedFileData {
        return Err(InvalidState);
      }
      if pendingRequest.None? {
        return Err(InvalidState);
      }
      var request := pendingRequest.value;
      if data == [] || |data| > request.len || |data| > Remaining(fileSize, request.offset) {
        return Err(UnexpectedEof);
      }
      RequestFits(view);
      r := Emit(data);
    }

    method Emit(data: seq<byte>) returns (r: Result<()>)
      requires Valid() && view.request.Some? && view.request.value.offset + |data| <= view.fileSize
      requires |data| <= SUBPACKET_MAX_SIZE
      modifies Repr()
      ensures Valid() && Did(SenderSpec.Emit(old(view), data), view, r)
    {
      hide Buffer.Holds, HeaderReader.Holds, OutgoingHolds, DataFrame;
      var request := pendingRequest.value;
      var nextOffset := request.offset + |data|;
      var remainingAfter := Remaining(fileSize, nextOffset);
      var isLastInFrame := frameRemaining <= 1 || |data| < request.len || remainingAfter == 0;
      r := QueueZdata(request.offset, data, if isLastInFrame then ZCRCW else ZCRCG, frameNeedsHeader);
      if r.Err? {
        return;
      }
      if isLastInFrame {
        CloseFrame();
      } else {
        MoveRequest(nextOffset);
      }
    }

    method CloseFrame()
      requires Valid()
      modifies this`frameNeedsHeader, this`pendingRequest, this`state, this`frameRemaining, this`view
      ensures Valid()
      ensures view == old(view).(needsHeader := false, request := None, phase := WaitFileAck, frameRemaining := 0)
    {
      hide Separate, Buffer.Holds, HeaderReader.Holds, OutgoingHolds;
      frameNeedsHeader := false;
      pendingRequest := None;
      state := WaitFileAck;
      frameRemaining := 0;
      view := view.(needsHeader := false, request := None, phase := WaitFileAck, frameRemaining := 0);
    }

    method MoveRequest(next: u32)
      requires Valid() && next <= view.fileSize
      modifies this`frameNeedsHeader, this`pendingRequest, this`frameRemaining, this`view
      ensures Valid()
      ensures view == old(view).(
                needsHeader := false,
                frameRemaining := if old(view).frameRemaining > 0 then old(view).frameRemaining - 1 else 0,
                request := Some(FileRequest(next, Min(old(view).maxSubpacket, old(view).fileSize - next))))
    {
      hide Separate, Buffer.Holds, HeaderReader.Holds, OutgoingHolds;
      frameNeedsHeader := false;
      frameRemaining := if frameRemaining > 0 then frameRemaining - 1 else 0;
      pendingRequest := Some(FileRequest(next, Min(maxSubpacketSize, fileSize - next)));
      view := view.(needsHeader := false, frameRemaining := frameRemaining, request := pendingRequest);
    }

    /** Sets the pacing for receivers that take data nonstop. */
    method SetStreamingWindow(subpackets: nat)
      requires Valid()
      modifies this`streamingWindow, this`maxSubpacketsPerAck, this`view
      ensures Valid() && view == SenderSpec.SetStreamingWindow(old(view), subpackets)
      ensures old(Inv(view)) ==> Inv(view)
    {
      hide Buffer.Holds, HeaderReader.Holds, OutgoingHolds, Inv;
      if old(Inv(view)) {
        SetStreamingWindowInv(view, subpackets);
      }
      streamingWindow := if subpackets < 1 then 1 else subpackets;
      if rxNonstop {
        maxSubpacketsPerAck := streamingWindow;
      }
      view := SenderSpec.SetStreamingWindow(view, subpackets);
    }

    /** `n` more of the offered wire bytes are out. */
    method WireWritten(n: nat)
      requires Valid()
      modifies Repr()
      ensures Valid() && view == SenderSpec.WireWritten(old(view), n)
      ensures old(Inv(view)) ==> Inv(view)
    {
      hide Valid, Inv;
      if old(Inv(view)) {
        WireWrittenInv(view, n);
      }
      AdvanceOutgoing(n);
    }

    method AdvanceOutgoing(n: nat)
      requires Valid()
      modifies Repr()
      ensures Valid() && view == SenderSpec.WireWritten(old(view), n)
    {
      hide HeaderReader.Holds, WireOf;
      NoMsgs();
      var remaining := outgoing.len - outgoingOffset;
      outgoingOffset := outgoingOffset + Min(n, remaining);
      view := SenderSpec.WireWritten(view, n);
      if outgoingOffset >= outgoing.len {
        outgoing.Clear();
        outgoingOffset := 0;
      }
    }

    /** The response timer ran out. */
    method Timeout() returns (r: Result<()>)
      requires Valid() && Inv(view)
      modifies Repr()
      ensures Valid() && Inv(view) && r.Ok? && Done(view) == SenderSpec.Timeout(old(view))
    {
      hide Buffer.Holds, HeaderReader.Holds, OutgoingHolds, Inv;
      TimeoutInv(view);
      var waiting := HasOutgoing();
      r := Ok(());
      if state == WaitReceiverInit && !waiting {
        r := QueueHeader(ZRQINIT_HEADER);
      }
    }

    /** What the caller has to do next: events first, then wire bytes, then file data. */
    method Poll() returns (a: Action)
      requires Valid() && Inv(view)
      modifies this`pendingEvent, this`view
      ensures Valid() && Inv(view) && view == SenderSpec.PopEvent(old(view)) && a == NextAction(old(view))
    {
      hide Buffer.Holds, HeaderReader.Holds, OutgoingHolds, Inv, WireOf;
      PopEventInv(view);
      if pendingEvent.Some? {
        a := Happened(pendingEvent.value);
        pendingEvent := None;
        view := SenderSpec.PopEvent(view);
        return;
      }
      var wire := DrainOutgoing();
      if wire != [] {
        return WriteWire(wire);
      }
      if pendingRequest.Some? {
        return ReadFile(pendingRequest.value.offset, pendingRequest.value.len);
      }
      return Action.Idle;
    }

    method DrainOutgoing() returns (s: seq<byte>)
      requires Valid()
      ensures s == view.WireBytes()
    {
      hide HeaderReader.Holds, WireOf;
      NoMsgs();
      s := outgoing.bytes[outgoingOffset..outgoing.len];
      assert s == outgoing.Contents()[outgoingOffset..];
    }
  }

  /** What is left of a file from an offset; nothing past its end. */
  function Remaining(size: u32, offset: nat): nat
  {
    if offset <= size then size - offset else 0
  }

  function WithFile(t: TxState, name: seq<byte>, size: u32): TxState
  {
    t.(fileName := name, fileSize := size, hasFile := true, request := None, frameRemaining := 0, needsHeader := false)
  }

  lemma RequestFits(t: TxState)
    requires Inv(t) && t.request.Some?
    ensures t.request.value.len <= SUBPACKET_MAX_SIZE
  {
  }

  lemma NameFits(t: TxState)
    requires Inv(t)
    ensures |t.fileName| <= NAME_CAP
  {
  }

  lemma ZfileBytes(name: seq<byte>, size: u32)
    ensures WireOf(ZfileFrame(name, size)) == EncZfile(name, size)
    ensures ZfileFrame(name, size) != []
  {
    hide EncHeader, WireOf, Metadata;
    TwoMsgs(Head(ZFILE_HEADER), Data(Sealed(ZBIN32, ZCRCW, Metadata(name, size))));
  }

  lemma DataBytes(offset: u32, data: seq<byte>, kind: SubpacketType, header: bool)
    ensures WireOf(DataFrame(offset, data, kind, header)) ==
            (if header then EncHeader(ZDATA_HEADER.WithCount(offset)) else []) + EncSubpacket(ZBIN32, kind, data)
  {
    hide EncHeader, WireOf, Header.WithCount, Checksum;
    var h, d := Head(ZDATA_HEADER.WithCount(offset)), Data(Sealed(ZBIN32, kind, data));
    if header {
      TwoMsgs(h, d);
      assert DataFrame(offset, data, kind, header) == [h, d];
    } else {
      OneMsg(d);
      assert DataFrame(offset, data, kind, header) == [d];
      assert [] + MsgBytes(d) == MsgBytes(d);
    }
  }
}
