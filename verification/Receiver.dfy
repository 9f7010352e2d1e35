/** The receiver as the crate has it: an object over fixed buffers, proved to do
    what its specification as a value says. */
module ReceiverMachine {
  import opened Primitives
  import opened Zdle
  import opened Buffers
  import opened HeaderCodec
  import opened HeaderReading
  import opened Subpackets
  import opened FileMetadata
  import opened ReceiverSpec
  import opened ReceiverInvariant
  import opened ReceiverFrames
  import opened ReceiverAnswers
  import opened Negotiation

  /** A method's answer and the state it leaves are the ones the specification gives. */
  ghost predicate Did(p: Reply, v: RxState, r: Result<()>)
  {
    v == p.rx && r == if p.Done? then Ok(()) else Err(p.error)
  }

  /** Part of a trailer is in. */
  predicate InTrailer(r: RxState)
  {
    r.InSubpacket() && r.sub.Trailer? && r.crc.got != []
  }

  /** One turn of the subpacket loop: `Ok(Some(()))`, `Ok(None)` or `Err`. */
  datatype Turn = Went | Waits | Fails(error: Error)

  /** Taking these bytes is what the turn did. */
  ghost predicate Turned(before: RxState, taken: seq<byte>, v: RxState, t: Turn)
  {
    Feed(before, taken) == if t.Fails? then Broken(v, t.error) else Fed.Fed(v)
  }

  /** The answer of a poll. */
  datatype Action =
    | FileStarted(name: seq<byte>, size: u32)
    | Happened(event: Event)
    | WriteWire(bytes: seq<byte>)
    | WriteFile(bytes: seq<byte>)
    | Idle

  function Announcement(r: RxState, e: Event): Action
  {
    if e == FileStart then FileStarted(r.fileName, r.fileSize) else Happened(e)
  }

  function NextAction(r: RxState): Action
  {
    if r.events != [] then Announcement(r, r.events[0])
    else if r.WireBytes() != [] then WriteWire(r.WireBytes())
    else if r.FileBytes() != [] then WriteFile(r.FileBytes())
    else Action.Idle
  }

  class Receiver {
    var state: ReceiverPhase
    var count: u32
    const fileName: Buffer
    var fileSize: u32
    const buf: Buffer
    var bufWriteOffset: nat
    var dataEncoding: Encoding
    const headerReader: HeaderReader
    var subpacketState: SubpacketPhase
    var subpacketEscapePending: bool
    const crc: RxCrc
    const outgoing: Buffer
    var outgoingOffset: nat
    const pendingEvents: array<Option<Event>>
    var pendingEventHead: nat
    var pendingEventLen: nat
    const bufferLen: nat
    const overlappedIo: bool
    var manualAccept: bool
    var zrposRetries: nat
    var fileActive: bool

    /** What all of the above stands for. */
    ghost var view: RxState

    ghost function Repr(): set<object>
    {
      {this, fileName, fileName.bytes, buf, buf.bytes, headerReader, headerReader.buf, headerReader.buf.bytes,
       crc, crc.buf, outgoing, outgoing.bytes, pendingEvents}
    }

    /** The parts are objects of their own. */
    ghost predicate Separate()
    {
      && fileName != buf && fileName != outgoing && fileName != headerReader.buf
      && buf != outgoing && buf != headerReader.buf && outgoing != headerReader.buf
      && fileName.bytes != buf.bytes && fileName.bytes != outgoing.bytes
      && fileName.bytes != headerReader.buf.bytes && fileName.bytes != crc.buf
      && buf.bytes != outgoing.bytes && buf.bytes != headerReader.buf.bytes && buf.bytes != crc.buf
      && outgoing.bytes != headerReader.buf.bytes && outgoing.bytes != crc.buf
      && headerReader.buf.bytes != crc.buf
    }

    ghost predicate Valid()
      reads Repr()
    {
      && Separate() && Scalars()
      && fileName.Holds(NAME_CAP, view.fileName)
      && buf.Holds(SUBPACKET_MAX_SIZE, view.buf)
      && headerReader.Holds(view.reader)
      && crc.Holds(view.crc)
      && OutgoingHolds(view.out, view.sent)
      && RingHolds(view.events)
    }

    ghost predicate Scalars()
      reads this
    {
      && state == view.phase && count == view.count && fileSize == view.fileSize
      && bufWriteOffset == view.written && dataEncoding == view.encoding
      && subpacketState == view.sub && subpacketEscapePending == view.escapePending
      && bufferLen == view.bufferLen && bufferLen < 0x1_0000 && overlappedIo == view.overlapped
      && manualAccept == view.manual && zrposRetries == view.retries && fileActive == view.active
    }

    /** What is left of `outgoing` is the tail of one header, never empty; and an
        `outgoing` with nothing left is cleared. */
    ghost predicate OutgoingHolds(out: Option<Header>, sent: nat)
      reads this`outgoingOffset, outgoing, outgoing.bytes
    {
      && outgoing.Holds(WIRE_BUF_SIZE, if out.Some? then EncHeader(out.value) else [])
      && outgoingOffset == sent
      && if out.Some? then sent < outgoing.len else sent == 0
    }

    /** The bytes that are still to be written out. */
    ghost function Outgoing(): seq<byte>
      reads this`outgoingOffset, outgoing, outgoing.bytes
    {
      if outgoingOffset <= outgoing.len <= outgoing.bytes.Length then outgoing.bytes[outgoingOffset..outgoing.len] else []
    }

    lemma OutgoingIs()
      requires Valid()
      ensures Outgoing() == view.WireBytes()
    {
      hide HeaderReader.Holds, RxCrc.Holds, EncHeader, RingHolds, Separate, Scalars;
    }

    /** A run of bytes that broke outside a subpacket left a ZNAK to be written out. */
    lemma BreakOffers(start: RxState, input: seq<byte>)
      requires Valid() && Inv(start) && Feed(start, input).Broken? && Feed(start, input).rx == view
      ensures !view.InSubpacket() ==> Outgoing() == EncHeader(Header(ZHEX, ZNAK, [0, 0, 0, 0]))
    {
      hide Valid, Inv, Feed, EncHeader, Outgoing;
      if !view.InSubpacket() {
        BreakAnswered(start, input);
        OutgoingIs();
      }
    }

    ghost predicate RingHolds(events: seq<Event>)
      reads this`pendingEventHead, this`pendingEventLen, pendingEvents
    {
      && pendingEvents.Length == EVENT_QUEUE_CAP
      && pendingEventHead < EVENT_QUEUE_CAP && pendingEventLen == |events| <= EVENT_QUEUE_CAP
      && forall i :: 0 <= i < |events| ==>
           pendingEvents[(pendingEventHead + i) % EVENT_QUEUE_CAP] == Some(events[i])
    }

    // -------------------------------------------------------------------
    // Construction
    // -------------------------------------------------------------------

    /** The objects a receiver owns, each new and its own. */
    static method Parts() returns (name: Buffer, staged: Buffer, out: Buffer, reader: HeaderReader, sum: RxCrc)
      ensures fresh(name) && fresh(name.bytes) && fresh(staged) && fresh(staged.bytes) && fresh(out) && fresh(out.bytes)
      ensures fresh(reader) && fresh(reader.buf) && fresh(reader.buf.bytes) && fresh(sum) && fresh(sum.buf)
      ensures name != staged && name != out && staged != out && reader.buf !in {name, staged, out}
      ensures name.bytes != staged.bytes && name.bytes != out.bytes && staged.bytes != out.bytes
      ensures reader.buf.bytes !in {name.bytes, staged.bytes, out.bytes}
      ensures sum.buf !in {name.bytes, staged.bytes, out.bytes, reader.buf.bytes}
      ensures name.Holds(NAME_CAP, []) && staged.Holds(SUBPACKET_MAX_SIZE, []) && out.Holds(WIRE_BUF_SIZE, [])
      ensures reader.Holds(FRESH) && sum.Holds(NO_CRC)
    {
      hide RxCrc.Holds, HeaderReader.Holds, Buffer.Holds;
      name := new Buffer(NAME_CAP);
      staged := new Buffer(SUBPACKET_MAX_SIZE);
      out := new Buffer(WIRE_BUF_SIZE);
      reader := new HeaderReader();
      sum := new RxCrc();
    }

    /** Everything at its start value, and nothing to send yet. */
    constructor (bufferLen: nat, overlapped: bool)
      requires bufferLen < 0x1_0000
      ensures Valid() && view == Initial(bufferLen, overlapped).(out := None)
      ensures fresh(fileName) && fresh(fileName.bytes) && fresh(buf) && fresh(buf.bytes)
      ensures fresh(headerReader) && fresh(headerReader.buf) && fresh(headerReader.buf.bytes)
      ensures fresh(crc) && fresh(crc.buf) && fresh(outgoing) && fresh(outgoing.bytes) && fresh(pendingEvents)
    {
      hide EncHeader, ZrinitHeader, RxCrc.Holds, HeaderReader.Holds, Buffer.Holds;
      var name, staged, out, reader, sum := Parts();
      fileName, buf, outgoing, headerReader, crc := name, staged, out, reader, sum;
      pendingEvents := new Option<Event>[] [None, None, None, None];
      state, count, fileSize, bufWriteOffset, dataEncoding := SessionBegin, 0, 0, 0, ZBIN;
      subpacketState, subpacketEscapePending := Resting, false;
      outgoingOffset, pendingEventHead, pendingEventLen := 0, 0, 0;
      this.bufferLen, overlappedIo := bufferLen, overlapped;
      manualAccept, zrposRetries, fileActive := false, 0, false;
      view := Initial(bufferLen, overlapped).(out := None);
      new;
      assert RingHolds([]);
    }

    /** A receiver that takes one subpacket of 1024 bytes at a time. */
    static method Create() returns (receiver: Receiver)
      ensures receiver.Valid() && fresh(receiver.Repr()) && receiver.view == Initial(1024, false)
      ensures Inv(receiver.view)
    {
      hide Receiver.Valid, Inv;
      receiver := WithFlowControl(SUBPACKET_MAX_SIZE, false);
    }

    /** A receiver that advertises a buffer of `bufferLen` bytes. */
    static method WithFlowControl(bufferLen: nat, overlapped: bool) returns (receiver: Receiver)
      requires bufferLen < 0x1_0000
      ensures receiver.Valid() && fresh(receiver.Repr()) && receiver.view == Initial(bufferLen, overlapped)
      ensures Inv(receiver.view)
    {
      hide Receiver.Valid, Inv, ZrinitHeader;
      receiver := new Receiver(bufferLen, overlapped);
      var _ := receiver.QueueZrinit();
      InitialInv(bufferLen, overlapped);
    }

    // -------------------------------------------------------------------
    // The event ring
    // -------------------------------------------------------------------

    method PutBack(event: Event, ghost events: seq<Event>)
      requires RingHolds(events) && pendingEventLen < EVENT_QUEUE_CAP
      modifies this`pendingEventLen, pendingEvents
      ensures RingHolds(events + [event])
    {
      var index := (pendingEventHead + pendingEventLen) % EVENT_QUEUE_CAP;
      pendingEvents[index] := Some(event);
      pendingEventLen := pendingEventLen + 1;
    }

    method TakeFront(ghost events: seq<Event>) returns (event: Option<Event>)
      requires RingHolds(events) && pendingEventLen > 0
      modifies this`pendingEventHead, this`pendingEventLen, pendingEvents
      ensures RingHolds(events[1..]) && event == Some(events[0])
    {
      ghost var head := pendingEventHead;
      assert pendingEvents[(head + 0) % EVENT_QUEUE_CAP] == Some(events[0]);
      event := pendingEvents[pendingEventHead];
      pendingEvents[pendingEventHead] := None;
      pendingEventHead := (pendingEventHead + 1) % EVENT_QUEUE_CAP;
      pendingEventLen := pendingEventLen - 1;
      forall i | 0 <= i < |events[1..]|
        ensures pendingEvents[(pendingEventHead + i) % EVENT_QUEUE_CAP] == Some(events[1..][i])
      {
        RingNext(head, i);
        assert old(pendingEvents[(head + (i + 1)) % EVENT_QUEUE_CAP]) == Some(events[i + 1]);
      }
    }

    method PushEvent(event: Event) returns (r: Result<()>)
      requires Valid()
      modifies Repr()
      ensures Valid() && Did(ReceiverSpec.PushEvent(old(view), event), view, r)
    {
      hide Buffer.Holds, HeaderReader.Holds, RxCrc.Holds, EncHeader, OutgoingHolds;
      if pendingEventLen >= EVENT_QUEUE_CAP {
        return Err(OutOfMemory);
      }
      PutBack(event, view.events);
      view := view.(events := view.events + [event]);
      return Ok(());
    }

    method PopEvent() returns (event: Option<Event>)
      requires Valid()
      modifies Repr()
      ensures Valid() && view == ReceiverSpec.PopEvent(old(view))
      ensures event == if old(view).events == [] then None else Some(old(view).events[0])
    {
      hide Buffer.Holds, HeaderReader.Holds, RxCrc.Holds, EncHeader, OutgoingHolds;
      if pendingEventLen == 0 {
        return None;
      }
      event := TakeFront(view.events);
      view := view.(events := view.events[1..]);
    }

    // -------------------------------------------------------------------
    // Queueing headers
    // -------------------------------------------------------------------

    /** Something is left to write exactly while a header is queued. */
    lemma OutgoingLeft()
      requires Valid()
      ensures outgoingOffset < outgoing.len <==> view.out.Some?
    {
      hide HeaderReader.Holds, RxCrc.Holds, EncHeader, RingHolds, Separate;
    }

    /** Every header fits the outgoing buffer, so the one refusal is backpressure. */
    method QueueHeader(h: Header) returns (r: Result<()>)
      requires Valid()
      modifies this`view, outgoing, outgoing.bytes
      ensures Valid() && Did(Queue(old(view), h), view, r)
    {
      hide Buffer.Holds, HeaderReader.Holds, RxCrc.Holds, EncHeader, RingHolds;
      OutgoingLeft();
      if outgoingOffset < outgoing.len {
        return Err(Backpressure);
      }
      FillWithHeader(outgoing, h);
      view := view.(out := Some(h), sent := 0);
      return Ok(());
    }

    method QueueZrinit() returns (r: Result<()>)
      requires Valid()
      modifies Repr()
      ensures Valid() && Did(ReceiverSpec.QueueZrinit(old(view)), view, r)
      ensures r.Ok? ==>
                && view.out.Some? && view.out.value.encoding == ZHEX && view.out.value.frame == ZRINIT
                && Says(view.out.value.flags, bufferLen, overlappedIo)
    {
      hide Buffer.Holds, HeaderReader.Holds, RxCrc.Holds, EncHeader, OutgoingHolds, RingHolds;
      Advertises(bufferLen, overlappedIo);
      var caps := 0x01 + 0x20;
      if overlappedIo {
        caps := caps + 0x02;
      }
      r := QueueHeader(Header(ZHEX, ZRINIT, [bufferLen % 0x100, bufferLen / 0x100 % 0x100, 0, caps]));
    }

    method QueueZrpos(count: u32) returns (r: Result<()>)
      requires Valid()
      modifies Repr()
      ensures Valid() && Did(ReceiverSpec.QueueZrpos(old(view), count), view, r)
    {
      hide Valid, Header.WithCount;
      r := QueueHeader(ZRPOS_HEADER.WithCount(count));
    }

    method QueueZack() returns (r: Result<()>)
      requires Valid()
      modifies Repr()
      ensures Valid() && Did(ReceiverSpec.QueueZack(old(view)), view, r)
    {
      hide Buffer.Holds, HeaderReader.Holds, RxCrc.Holds, EncHeader, OutgoingHolds, RingHolds, Header.WithCount;
      r := QueueHeader(ZACK_HEADER.WithCount(count));
    }

    // -------------------------------------------------------------------
    // Headers
    // -------------------------------------------------------------------

    /** Drops staged data and starts a new checksum. */
    method ClearSubpacket()
      requires Valid()
      modifies Repr()
      ensures Valid() && view == old(view).Cleared()
    {
      hide Valid;
      ResetChecksum();
      ClearData();
    }

    method ResetChecksum()
      requires Valid()
      modifies this`subpacketEscapePending, this`view, crc
      ensures Valid() && view == old(view).(crc := NO_CRC, escapePending := false)
    {
      hide Buffer.Holds, RxCrc.Holds, HeaderReader.Holds, EncHeader, OutgoingHolds, RingHolds;
      subpacketEscapePending := false;
      crc.Reset();
      view := view.(crc := NO_CRC, escapePending := false);
    }

    method ClearData()
      requires Valid()
      modifies this`bufWriteOffset, this`view, buf
      ensures Valid() && view == old(view).(buf := [], written := 0)
    {
      hide Buffer.Holds, RxCrc.Holds, HeaderReader.Holds, EncHeader, OutgoingHolds, RingHolds;
      buf.Clear();
      bufWriteOffset := 0;
      view := view.(buf := [], written := 0);
    }

    method Enter(phase: ReceiverPhase, sub: SubpacketPhase)
      requires Valid()
      modifies this`state, this`subpacketState, this`view
      ensures Valid() && view == old(view).(phase := phase, sub := sub)
    {
      hide Buffer.Holds, HeaderReader.Holds, RxCrc.Holds, EncHeader, OutgoingHolds, RingHolds;
      state := phase;
      subpacketState := sub;
      view := view.(phase := phase, sub := sub);
    }

    method SetEncoding(e: Encoding)
      requires Valid()
      modifies this`dataEncoding, this`view
      ensures Valid() && view == old(view).(encoding := e)
    {
      hide Buffer.Holds, HeaderReader.Holds, RxCrc.Holds, EncHeader, OutgoingHolds, RingHolds;
      dataEncoding := e;
      view := view.(encoding := e);
    }

    method OnZsinit(h: Header)
      requires Valid()
      modifies Repr()
      ensures Valid() && view == ReceiverSpec.OnZsinit(old(view), h)
    {
      hide Valid;
      ClearSubpacket();
      SetEncoding(if h.encoding == ZHEX then ZBIN else h.encoding);
      Enter(SinitReadingData, if h.encoding == ZHEX then SkipTrailer else Reading);
    }

    method OnZfile(h: Header)
      requires Valid()
      modifies Repr()
      ensures Valid() && view == ReceiverSpec.OnZfile(old(view), h)
    {
      hide Valid;
      ClearSubpacket();
      SetEncoding(h.encoding);
      Enter(FileReadingMetadata, Reading);
    }

    method OnZdata(h: Header) returns (r: Result<()>)
      requires Valid()
      modifies Repr()
      ensures Valid() && Did(ReceiverSpec.OnZdata(old(view), h), view, r)
    {
      hide Buffer.Holds, HeaderReader.Holds, RxCrc.Holds, EncHeader, OutgoingHolds, RingHolds;
      hide LeBytes, FromLe;
      if h.Count() != count {
        r := QueueZrpos(count);
        return;
      }
      ClearSubpacket();
      SetEncoding(h.encoding);
      Enter(FileReadingSubpacket, Reading);
      return Ok(());
    }

    method OnZeof() returns (r: Result<()>)
      requires Valid()
      modifies Repr()
      ensures Valid() && Did(ReceiverSpec.OnZeof(old(view)), view, r)
    {
      hide Buffer.Holds, HeaderReader.Holds, RxCrc.Holds, EncHeader, OutgoingHolds, RingHolds, ZrinitHeader;
      r := QueueZrinit();
      if r.Err? {
        return;
      }
      CloseFile();
      r := PushEvent(FileComplete);
    }

    method CloseFile()
      requires Valid()
      modifies this`state, this`fileActive, this`view
      ensures Valid() && view == old(view).(phase := FileBegin, active := false)
    {
      hide Separate, Buffer.Holds, HeaderReader.Holds, RxCrc.Holds, EncHeader, OutgoingHolds, RingHolds;
      state := FileBegin;
      fileActive := false;
      view := view.(phase := FileBegin, active := false);
    }

    method OnZfin() returns (r: Result<()>)
      requires Valid()
      modifies Repr()
      ensures Valid() && Did(ReceiverSpec.OnZfin(old(view)), view, r)
    {
      hide Buffer.Holds, HeaderReader.Holds, RxCrc.Holds, EncHeader, OutgoingHolds, RingHolds;
      r := QueueHeader(ZFIN_HEADER);
      if r.Err? {
        return;
      }
      state := SessionEnd;
      view := view.(phase := SessionEnd);
      r := PushEvent(SessionComplete);
    }

    method Abort() returns (r: Result<()>)
      requires Valid()
      modifies Repr()
      ensures Valid() && Did(ReceiverSpec.Abort(old(view)), view, r)
      ensures old(Inv(view)) ==> Inv(view) && (r.Err? <==> old(view).EventsFull())
    {
      hide Buffer.Holds, HeaderReader.Holds, RxCrc.Holds, EncHeader, OutgoingHolds, RingHolds, Inv;
      state := SessionEnd;
      view := view.(phase := SessionEnd);
      r := PushEvent(Aborted);
      if old(Inv(view)) {
        AbortInv(old(view));
      }
    }

    method HandleHeader(h: Header) returns (r: Result<()>)
      requires Valid()
      modifies Repr()
      ensures Valid() && Did(ReceiverSpec.HandleHeader(old(view), h), view, r)
    {
      hide Buffer.Holds, HeaderReader.Holds, RxCrc.Holds, EncHeader, OutgoingHolds, RingHolds;
      hide ReceiverSpec.OnZsinit, ReceiverSpec.OnZfile, ReceiverSpec.OnZdata, ReceiverSpec.OnZeof;
      hide ReceiverSpec.OnZfin;
      hide ReceiverSpec.PushEvent, ReceiverSpec.QueueZrinit, FromLe;
      r := Ok(());
      if (h.frame == ZRQINIT || h.frame == ZDATA) && state == SessionBegin {
        r := QueueZrinit();
      } else if h.frame == ZSINIT && state == SessionBegin {
        OnZsinit(h);
      } else if h.frame == ZFILE && (state == SessionBegin || state == FileBegin) {
        OnZfile(h);
      } else if h.frame == ZDATA && (state == FileBegin || state == FileWaitingSubpacket) {
        r := OnZdata(h);
      } else if h.frame == ZEOF && (state == FileWaitingSubpacket || (state == FileBegin && fileActive))
                && h.Count() == count {
        r := OnZeof();
      } else if h.frame == ZABORT || h.frame == ZCAN {
        r := Abort();
      } else if h.frame == ZFIN && (state == FileWaitingSubpacket || state == FileBegin) {
        r := OnZfin();
      }
    }

    // -------------------------------------------------------------------
    // Subpacket bytes
    // -------------------------------------------------------------------

    method TakeData(b: byte) returns (r: Result<()>)
      requires Valid()
      modifies Repr()
      ensures Valid() && Did(ReceiverSpec.TakeData(old(view), b), view, r)
    {
      hide HeaderReader.Holds, EncHeader, OutgoingHolds, RingHolds, CrcState.Updated;
      var ok := buf.Push(b);
      if !ok {
        return Err(OutOfMemory);
      }
      crc.Update(b, dataEncoding);
      view := view.(buf := view.buf + [b], crc := view.crc.Updated(b, view.encoding));
      return Ok(());
    }

    /** The byte after a ZDLE: a terminator or an escaped data byte. */
    method TakeFollower(b: byte) returns (r: Result<()>)
      requires Valid()
      modifies Repr()
      ensures Valid() && Did(ReceiverSpec.TakeFollower(old(view), b), view, r)
    {
      hide Buffer.Holds, HeaderReader.Holds, EncHeader, OutgoingHolds, RingHolds, CrcState.Updated;
      hide ReceiverSpec.TakeData;
      var packet := KindOf(b);
      if packet.Some? {
        crc.Update(KindByte(packet.value), dataEncoding);
        subpacketState := Trailer(packet.value);
        view := view.(crc := view.crc.Updated(b, view.encoding), sub := Trailer(packet.value));
        return Ok(());
      }
      UnescapeTableMeaning(b);
      r := TakeData(UnescapeTable(b));
    }

    method SetSub(sub: SubpacketPhase)
      requires Valid()
      modifies this`subpacketState, this`view
      ensures Valid() && view == old(view).(sub := sub)
    {
      hide Buffer.Holds, HeaderReader.Holds, RxCrc.Holds, EncHeader, OutgoingHolds, RingHolds;
      subpacketState := sub;
      view := view.(sub := sub);
    }

    method SetEscapePending(pending: bool)
      requires Valid()
      modifies this`subpacketEscapePending, this`view
      ensures Valid() && view == old(view).(escapePending := pending)
    {
      hide Buffer.Holds, HeaderReader.Holds, RxCrc.Holds, EncHeader, OutgoingHolds, RingHolds;
      subpacketEscapePending := pending;
      view := view.(escapePending := pending);
    }

    /** The byte just read follows no ZDLE; if it is one, it takes its follower
        along as far as that is there. */
    method PlainByte(port: SliceReader, b: byte) returns (t: Turn)
      requires Valid() && port.Valid() && port !in Repr() && port.pos > 0 && port.buf[port.pos - 1] == b
      requires view.CanRead() && view.InSubpacket() && view.sub.Reading? && !view.escapePending
      modifies Repr(), port
      ensures Valid() && port.Valid() && old(port.pos) <= port.pos
      ensures Turned(old(view), port.buf[old(port.pos) - 1..port.pos], view, t)
      ensures t.Waits? ==> port.pos == |port.buf|
    {
      hide Valid, Feed, ReceiverSpec.TakeData, ReceiverSpec.TakeFollower;
      ghost var before, from := view, port.pos - 1;
      assert port.buf[from..from + 1] == [b];
      if b == ZDLE {
        var next := port.ReadByte();
        EscapeTurn(before);
        if next.None? {
          SetEscapePending(true);
          return Waits;
        }
        PairTurn(before, next.value);
        assert port.buf[from..from + 2] == [ZDLE, next.value];
        var r := TakeFollower(next.value);
        return if r.Ok? then Went else Fails(r.error);
      }
      PlainTurn(before, b);
      var r := TakeData(b);
      t := if r.Ok? then Went else Fails(r.error);
    }

    /** The next byte of the data, escaped or not. */
    method DataByte(port: SliceReader) returns (t: Turn)
      requires Valid() && port.Valid() && port !in Repr()
      requires view.CanRead() && view.InSubpacket() && view.sub.Reading?
      modifies Repr(), port
      ensures Valid() && port.Valid() && old(port.pos) <= port.pos
      ensures old(port.pos) < |port.buf| ==> old(port.pos) < port.pos
      ensures Turned(old(view), port.buf[old(port.pos)..port.pos], view, t)
      ensures t.Waits? ==> port.pos == |port.buf|
    {
      hide Buffer.Holds, HeaderReader.Holds, RxCrc.Holds, OutgoingHolds, RingHolds;
      hide Feed, ReceiverSpec.TakeFollower;
      ghost var before := view;
      NothingFed(before, port.buf, port.pos);
      var b := port.ReadByte();
      if b.None? {
        return Waits;
      }
      if !subpacketEscapePending {
        t := PlainByte(port, b.value);
        return;
      }
      FollowerTurn(before, b.value);
      SetEscapePending(false);
      var r := TakeFollower(b.value);
      t := if r.Ok? then Went else Fails(r.error);
      assert port.buf[old(port.pos)..port.pos] == [b.value];
    }

    /** Line trailer bytes are skipped; the first other byte is data. */
    method TrailerLine(port: SliceReader) returns (t: Turn)
      requires Valid() && port.Valid() && port !in Repr()
      requires view.CanRead() && view.InSubpacket() && view.sub.SkipTrailer? && !view.escapePending
      modifies Repr(), port
      ensures Valid() && port.Valid() && old(port.pos) <= port.pos
      ensures old(port.pos) < |port.buf| ==> old(port.pos) < port.pos
      ensures Turned(old(view), port.buf[old(port.pos)..port.pos], view, t)
      ensures t.Waits? ==> port.pos == |port.buf|
    {
      hide Valid, Feed, LineTrailer;
      ghost var before, from := view, port.pos;
      NothingFed(before, port.buf, port.pos);
      while true
        invariant Valid() && port.Valid() && view == before && from <= port.pos
        invariant Turned(before, port.buf[from..port.pos], before, Waits)
        decreases |port.buf| - port.pos
      {
        ghost var at := port.pos;
        var b := port.ReadByte();
        if b.None? {
          return Waits;
        }
        if !LineTrailer(b.value) {
          t := FirstByte(port, b.value);
          TurnsJoin(before, port.buf, from, at, port.pos);
          return;
        }
        SkippedTurn(before, b.value);
        assert port.buf[at..at + 1] == [b.value];
        TurnsJoin(before, port.buf, from, at, port.pos);
      }
    }

    /** The first data byte after a line trailer. */
    method FirstByte(port: SliceReader, b: byte) returns (t: Turn)
      requires Valid() && port.Valid() && port !in Repr() && port.pos > 0 && port.buf[port.pos - 1] == b
      requires view.CanRead() && view.InSubpacket() && view.sub.SkipTrailer? && !view.escapePending && !LineTrailer(b)
      modifies Repr(), port
      ensures Valid() && port.Valid() && old(port.pos) <= port.pos
      ensures Turned(old(view), port.buf[old(port.pos) - 1..port.pos], view, t)
      ensures t.Waits? ==> port.pos == |port.buf|
    {
      hide Valid, Feed, LineTrailer;
      ghost var before, from := view, port.pos - 1;
      SetSub(Reading);
      t := PlainByte(port, b);
      FirstTurn(before, port.buf[from..port.pos]);
    }

    // -------------------------------------------------------------------
    // Complete subpackets
    // -------------------------------------------------------------------

    /** Splits the metadata into its fields. */
    method ParseZfileBuf() returns (r: Result<()>)
      requires Valid()
      modifies Repr()
      ensures Valid() && Did(ParseZfile(old(view)), view, r)
    {
      hide Valid, Field, SizeOf, SizeField;
      var payload := Payload();
      var name := Field(payload, NUL);
      if name == [] {
        return Err(MalformedFileName);
      }
      r := SetFileName(name);
      if r.Err? {
        return;
      }
      var rest := AfterField(payload, NUL);
      var size := Ok(0);
      if rest.Some? {
        size := ParseFileSize(SizeField(rest.value));
        if size.Err? {
          return Err(size.error);
        }
      }
      SetFileSize(size.value);
    }

    method SetFileSize(size: u32)
      requires Valid()
      modifies this`fileSize, this`count, this`view
      ensures Valid() && view == old(view).(fileSize := size, count := 0)
    {
      hide Buffer.Holds, HeaderReader.Holds, RxCrc.Holds, EncHeader, OutgoingHolds, RingHolds;
      fileSize := size;
      count := 0;
      view := view.(fileSize := size, count := 0);
    }

    method Payload() returns (payload: seq<byte>)
      requires Valid()
      ensures payload == view.buf
    {
      hide HeaderReader.Holds, RxCrc.Holds, OutgoingHolds, RingHolds;
      payload := buf.bytes[..buf.len];
    }

    /** The name's buffer is sound and has its capacity. */
    lemma NameRoom()
      requires Valid()
      ensures fileName.Valid() && fileName.capacity == NAME_CAP
    {
      hide HeaderReader.Holds, RxCrc.Holds, OutgoingHolds, RingHolds;
    }

    method SetFileName(name: seq<byte>) returns (r: Result<()>)
      requires Valid()
      modifies this`view, fileName, fileName.bytes
      ensures Valid()
      ensures view == old(view).(fileName := if |name| <= NAME_CAP then name else [])
      ensures r == if |name| <= NAME_CAP then Ok(()) else Err(OutOfMemory)
    {
      hide Buffer.Holds, HeaderReader.Holds, RxCrc.Holds, OutgoingHolds, RingHolds;
      NameRoom();
      var ok := fileName.Replace(name);
      view := view.(fileName := if ok then name else []);
      return if ok then Ok(()) else Err(OutOfMemory);
    }

    /** The data is persisted: moves the offset and answers as the terminator asks. */
    method FinishSubpacket(packet: SubpacketType) returns (r: Result<()>)
      requires Valid()
      modifies Repr()
      ensures Valid() && Did(ReceiverSpec.FinishSubpacket(old(view), packet), view, r)
    {
      hide Valid, ReceiverSpec.QueueZack;
      r := Advance();
      if r.Err? {
        return;
      }
      match packet {
        case ZCRCW =>
          r := QueueZack();
          if r.Ok? {
            Enter(FileWaitingSubpacket, Resting);
          }
        case ZCRCQ =>
          r := QueueZack();
          if r.Ok? {
            SetSub(Reading);
          }
        case ZCRCG =>
          SetSub(Reading);
        case ZCRCE =>
          Enter(FileWaitingSubpacket, Resting);
      }
    }

    /** Counts the staged data, unless the offset would pass 32 bits. */
    method Advance() returns (r: Result<()>)
      requires Valid()
      modifies Repr()
      ensures Valid()
      ensures old(view).count + |old(view).buf| > MAX_COUNT ==> r == Err(OutOfMemory) && view == old(view)
      ensures old(view).count + |old(view).buf| <= MAX_COUNT ==>
                r == Ok(()) && view == old(view).Cleared().(count := old(view).count + |old(view).buf|, retries := 0)
    {
      hide Buffer.Holds, HeaderReader.Holds, RxCrc.Holds, OutgoingHolds, RingHolds;
      var payload := Payload();
      if count + |payload| > MAX_COUNT {
        return Err(OutOfMemory);
      }
      count := count + |payload|;
      zrposRetries := 0;
      view := view.(count := count, retries := 0);
      ClearSubpacket();
      return Ok(());
    }

    /** Asks for a rewind to the last good offset, or gives up with the error. */
    method RecoverCorruptSubpacket(e: Error) returns (r: Result<()>)
      requires Valid()
      modifies Repr()
      ensures Valid() && Did(Recover(old(view), e), view, r)
    {
      hide Valid, ReceiverSpec.QueueZrpos;
      var retries := CountRetry();
      if retries > MAX_ZRPOS_RETRIES {
        return Err(e);
      }
      ClearSubpacket();
      r := QueueZrposAgain();
      if r.Ok? {
        Enter(FileWaitingSubpacket, Resting);
        EnterResync();
      }
    }

    method CountRetry() returns (retries: nat)
      requires Valid()
      modifies this`zrposRetries, this`view
      ensures Valid() && view == old(view).(retries := retries) && retries == Min(old(view).retries + 1, 0xFF)
    {
      hide Buffer.Holds, HeaderReader.Holds, RxCrc.Holds, EncHeader, OutgoingHolds, RingHolds;
      zrposRetries := Min(zrposRetries + 1, 0xFF);
      view := view.(retries := zrposRetries);
      return zrposRetries;
    }

    method QueueZrposAgain() returns (r: Result<()>)
      requires Valid()
      modifies Repr()
      ensures Valid() && Did(ReceiverSpec.QueueZrpos(old(view), old(view).count), view, r)
    {
      hide Buffer.Holds, HeaderReader.Holds, RxCrc.Holds, OutgoingHolds, RingHolds, ReceiverSpec.QueueZrpos;
      r := QueueZrpos(count);
    }

    method EnterResync()
      requires Valid()
      modifies Repr()
      ensures Valid() && view == old(view).(reader := old(view).reader.(resyncing := true))
    {
      hide Buffer.Holds, RxCrc.Holds, OutgoingHolds, RingHolds;
      headerReader.EnterResync();
      view := view.(reader := view.reader.(resyncing := true));
    }

    /** Announces a file and, unless the caller decides, asks for it from the start. */
    method StartFile() returns (r: Result<()>)
      requires Valid()
      modifies Repr()
      ensures Valid() && Did(ReceiverSpec.StartFile(old(view)), view, r)
    {
      hide Buffer.Holds, HeaderReader.Holds, RxCrc.Holds, OutgoingHolds, RingHolds;
      hide ParseZfile, ReceiverSpec.QueueZrpos, ReceiverSpec.PushEvent;
      r := ParseZfileBuf();
      if r.Err? {
        return;
      }
      ClearSubpacket();
      if manualAccept {
        Enter(FileAcceptPending, Resting);
      } else {
        r := QueueZrpos(0);
        if r.Err? {
          return;
        }
        Enter(FileBegin, Resting);
        SetActive(true);
      }
      r := PushEvent(FileStart);
    }

    method SetActive(active: bool)
      requires Valid()
      modifies this`fileActive, this`view
      ensures Valid() && view == old(view).(active := active)
    {
      hide Buffer.Holds, HeaderReader.Holds, RxCrc.Holds, EncHeader, OutgoingHolds, RingHolds;
      fileActive := active;
      view := view.(active := active);
    }

    /** A subpacket with a good trailer is in. */
    method CompleteSubpacket(packet: SubpacketType) returns (r: Result<()>)
      requires Valid()
      modifies Repr()
      ensures Valid() && Did(ReceiverSpec.CompleteSubpacket(old(view), packet), view, r)
    {
      hide Buffer.Holds, HeaderReader.Holds, RxCrc.Holds, OutgoingHolds, RingHolds;
      hide ReceiverSpec.StartFile, ReceiverSpec.FinishSubpacket;
      if state == FileReadingMetadata {
        r := StartFile();
      } else if state == SinitReadingData {
        ClearSubpacket();
        r := QueueHeader(ZACK_HEADER);
        if r.Ok? {
          Enter(SessionBegin, Resting);
        }
      } else {
        r := Offer(packet);
      }
    }

    method Offer(packet: SubpacketType) returns (r: Result<()>)
      requires Valid()
      modifies Repr()
      ensures
        var w := old(view).(sub := Writing(packet), written := 0);
        Valid() && Did(if w.buf == [] then ReceiverSpec.FinishSubpacket(w, packet) else Done(w), view, r)
    {
      hide Valid, ReceiverSpec.FinishSubpacket;
      OfferFrom(packet);
      var payload := Payload();
      if payload == [] {
        r := FinishSubpacket(packet);
      } else {
        r := Ok(());
      }
    }

    method OfferFrom(packet: SubpacketType)
      requires Valid()
      modifies this`subpacketState, this`bufWriteOffset, this`view
      ensures Valid() && view == old(view).(sub := Writing(packet), written := 0)
    {
      hide Buffer.Holds, HeaderReader.Holds, RxCrc.Holds, EncHeader, OutgoingHolds, RingHolds;
      subpacketState := Writing(packet);
      bufWriteOffset := 0;
      view := view.(sub := Writing(packet), written := 0);
    }

    /** What the trailer check decides. */
    method Judge(packet: SubpacketType, v: Verdict) returns (t: Turn)
      requires Valid()
      modifies Repr()
      ensures Valid()
      ensures var p := Judged(old(view), packet, v); view == p.rx && (if p.Refused? then t == Fails(p.error) else !t.Fails?)
      ensures t.Waits? ==> v.More?
    {
      hide Buffer.Holds, HeaderReader.Holds, RxCrc.Holds, OutgoingHolds, RingHolds;
      hide ReceiverSpec.CompleteSubpacket, Recover;
      if v.More? {
        return Waits;
      }
      var r: Result<()>;
      if v.Good? {
        r := CompleteSubpacket(packet);
      } else if state == FileReadingSubpacket {
        r := RecoverCorruptSubpacket(v.error);
      } else {
        r := Err(v.error);
      }
      t := if r.Ok? then Went else Fails(r.error);
    }

    // -------------------------------------------------------------------
    // Wire input
    // -------------------------------------------------------------------

    /** Takes the next decoded trailer byte from the port, if it is all there. */
    method CheckTrailer(port: SliceReader) returns (v: Verdict)
      requires Valid() && port.Valid() && port !in Repr() && |view.crc.got| < CrcLen(view.encoding)
      modifies this`view, crc, crc.buf, port
      ensures Valid() && port.Valid()
      ensures
        var u := UnescRead(old(view).crc.escapePending, old(port.Rest()));
        var s := TrailerRead(old(view).crc, old(view).encoding, old(port.Rest()));
        port.pos == old(port.pos) + u.1 && view == old(view).(crc := s.crc) && v == s.verdict
    {
      hide Buffer.Holds, HeaderReader.Holds, OutgoingHolds, RingHolds, TrailerByte;
      ghost var s := TrailerRead(view.crc, view.encoding, port.Rest());
      v := crc.Process(port, dataEncoding);
      view := view.(crc := s.crc);
    }

    method Trailing(port: SliceReader, packet: SubpacketType) returns (t: Turn)
      requires Valid() && port.Valid() && port !in Repr()
      requires view.CanRead() && view.InSubpacket() && view.sub == Trailer(packet)
      requires |view.crc.got| < CrcLen(view.encoding)
      modifies Repr(), port
      ensures Valid() && port.Valid() && old(port.pos) <= port.pos
      ensures old(port.pos) < |port.buf| ==> old(port.pos) < port.pos
      ensures Turned(old(view), port.buf[old(port.pos)..port.pos], view, t)
      ensures t.Waits? ==> port.pos == |port.buf| || InTrailer(view)
    {
      hide Valid, Feed, Judged, TrailerRead, UnescRead, InTrailer;
      ghost var before, from := view, port.pos;
      TrailerTurn(before, port.buf[from..]);
      TrailerWaits(before, port.buf[from..]);
      var v := CheckTrailer(port);
      assert port.buf[from..][..port.pos - from] == port.buf[from..port.pos];
      t := Judge(packet, v);
    }

    /** One turn of the subpacket loop. */
    method ProcessSubpacket(port: SliceReader) returns (t: Turn)
      requires Valid() && port.Valid() && port !in Repr()
      requires Inv(view) && !view.Blocked() && view.InSubpacket()
      modifies Repr(), port
      ensures Valid() && port.Valid() && old(port.pos) <= port.pos
      ensures old(view).CanRead() && old(port.pos) < |port.buf| ==> old(port.pos) < port.pos
      ensures Turned(old(view), port.buf[old(port.pos)..port.pos], view, t)
      ensures t.Waits? ==> port.pos == |port.buf| || InTrailer(view)
    {
      hide Buffer.Holds, HeaderReader.Holds, RxCrc.Holds, OutgoingHolds, RingHolds, Feed, CrcAfter, EncHeader;
      match subpacketState {
        case SkipTrailer =>
          t := TrailerLine(port);
        case Reading =>
          t := DataByte(port);
        case Trailer(packet) =>
          t := Trailing(port, packet);
        case Writing(_) =>
          NothingFed(view, port.buf, port.pos);
          return Went;
        case Resting =>
          assert false;
      }
    }

    /** Reads on for a header; malformed framing is answered with a ZNAK. */
    method ProcessHeader(port: SliceReader) returns (t: Turn)
      requires Valid() && port.Valid() && port !in Repr()
      requires view.CanRead() && !view.InSubpacket()
      modifies Repr(), port
      ensures Valid() && port.Valid() && old(port.pos) <= port.pos
      ensures old(port.pos) < |port.buf| ==> old(port.pos) < port.pos
      ensures Turned(old(view), port.buf[old(port.pos)..port.pos], view, t)
      ensures t.Waits? ==> port.pos == |port.buf|
    {
      hide Valid, Feed, ReadChunk, ReceiverSpec.HandleHeader;
      ghost var before, from := view, port.pos;
      HeaderTurn(before, port.buf[from..]);
      var out := ReadHeader(port);
      assert port.buf[from..][..port.pos - from] == port.buf[from..port.pos];
      if out.Nothing? {
        return Waits;
      }
      var r: Result<()>;
      if out.Failed? {
        r := QueueHeader(ZNAK_HEADER);
        return Fails(out.error);
      }
      r := HandleHeader(out.header);
      t := if r.Ok? then Went else Fails(r.error);
    }

    method ReadHeader(port: SliceReader) returns (out: Outcome)
      requires Valid() && port.Valid() && port !in Repr()
      modifies this`view, headerReader, headerReader.buf, headerReader.buf.bytes, port
      ensures Valid() && port.Valid() && old(port.pos) <= port.pos
      ensures
        var a := ReadChunk(old(view).reader, old(port.Rest()));
        port.pos == old(port.pos) + a.taken && view == old(view).(reader := a.reader) && out == a.outcome
    {
      hide Buffer.Holds, RxCrc.Holds, OutgoingHolds, RingHolds, ReadChunk;
      ghost var a := ReadChunk(view.reader, port.Rest());
      out := headerReader.Read(port);
      view := view.(reader := a.reader);
    }

    /** No further input can be taken until the caller drains what is on offer. */
    method Blocked() returns (b: bool)
      requires Valid()
      ensures b == view.Blocked()
    {
      hide HeaderReader.Holds, RxCrc.Holds;
      var payload := Payload();
      b := outgoingOffset < outgoing.len
        || (subpacketState.Writing? && bufWriteOffset < |payload|)
        || pendingEventLen >= EVENT_QUEUE_CAP;
    }

    /** One turn of the loop below: whether the loop goes on, or the error. */
    method TakeTurn(port: SliceReader, ghost start: RxState) returns (t: Turn, more: bool)
      requires Valid() && port.Valid() && port !in Repr() && Inv(view)
      requires Feed(start, port.buf[..port.pos]) == Fed.Fed(view)
      modifies Repr(), port
      ensures Valid() && port.Valid() && old(port.pos) <= port.pos
      ensures old(view).CanRead() && old(port.pos) < |port.buf| ==> old(port.pos) < port.pos
      ensures !t.Fails? ==> Inv(view) && Feed(start, port.buf[..port.pos]) == Fed.Fed(view)
      ensures t.Fails? ==> Feed(start, port.buf[..port.pos]) == Broken(view, t.error)
      ensures more ==> old(port.pos) < port.pos
      ensures !more && !t.Fails? ==> port.pos == |port.buf| || !view.CanRead() || InTrailer(view)
    {
      hide Valid, Inv, Feed;
      var from := port.pos;
      ghost var v := view;
      assert port.buf[0..from] == port.buf[..from];
      var blocked := Blocked();
      if blocked {
        return Waits, false;
      }
      var inSubpacket := InSubpacket();
      if inSubpacket {
        t := ProcessSubpacket(port);
        blocked := Blocked();
        more := t.Went? && !blocked && port.pos != from;
      } else {
        t := ProcessHeader(port);
        var full := EventsFull();
        more := t.Went? && !full && port.pos != from && port.pos != |port.buf|;
      }
      NothingFed(v, port.buf, from);
      TurnsJoin(start, port.buf, 0, from, port.pos);
      assert port.buf[0..port.pos] == port.buf[..port.pos];
      FeedInv(v, port.buf[from..port.pos]);
    }

    method EventsFull() returns (b: bool)
      requires Valid()
      ensures b == view.EventsFull()
    {
      hide Buffer.Holds, HeaderReader.Holds, RxCrc.Holds, OutgoingHolds;
      b := pendingEventLen >= EVENT_QUEUE_CAP;
    }

    method InSubpacket() returns (b: bool)
      requires Valid()
      ensures b == view.InSubpacket()
    {
      hide Buffer.Holds, HeaderReader.Holds, RxCrc.Holds, OutgoingHolds, RingHolds;
      b := state == FileReadingSubpacket || state == FileReadingMetadata || state == SinitReadingData;
    }

    /** Submits wire input and says how much of it was taken. The bytes taken act
        one by one as the specification has it; if any can be taken, some are; on
        an error the input feeds into that error; and the invariant holds after,
        until a fatal checksum or metadata error ends the run. */
    method SubmitWire(input: seq<byte>) returns (res: Result<nat>)
      requires Valid() && Inv(view)
      modifies Repr()
      ensures Valid()
      ensures res.Ok? ==> res.value <= |input| && Feed(old(view), input[..res.value]) == Fed.Fed(view) && Inv(view)
      ensures res.Ok? && old(view).CanRead() && input != [] ==> res.value > 0
      ensures res.Ok? ==> res.value == |input| || !view.CanRead() || InTrailer(view)
      ensures res.Err? ==> Feed(old(view), input) == Broken(view, res.error) && (Inv(view) || Spent(view))
      ensures res.Err? ==> res.error != Backpressure && res.error != InvalidState
      ensures res.Err? && !view.InSubpacket() ==> Outgoing() == EncHeader(Header(ZHEX, ZNAK, [0, 0, 0, 0]))
    {
      hide Valid, Inv, Feed, Spent, RxState.CanRead, RxState.InSubpacket, InTrailer, Outgoing, EncHeader;
      var reader := new SliceReader(input);
      ghost var start := view;
      NothingFed(start, input, 0);
      while true
        invariant Valid() && reader.Valid() && fresh(reader) && reader !in Repr() && reader.buf == input
        invariant Inv(view) && Feed(start, input[..reader.pos]) == Fed.Fed(view)
        invariant reader.pos == 0 ==> view == start
        decreases |input| - reader.pos
      {
        var t, more := TakeTurn(reader, start);
        if t.Fails? {
          BrokenEarly(start, input, reader.pos);
          FeedInv(start, input);
          BreakOffers(start, input);
          return Err(t.error);
        }
        if !more {
          return Ok(reader.pos);
        }
      }
    }

    // -------------------------------------------------------------------
    // The caller's operations
    // -------------------------------------------------------------------

    /** `n` more of the offered wire bytes are out. */
    method WireWritten(n: nat)
      requires Valid()
      modifies Repr()
      ensures Valid() && view == ReceiverSpec.WireWritten(old(view), n)
      ensures old(Inv(view)) ==> Inv(view)
    {
      hide Inv;
      if old(Inv(view)) {
        WireWrittenInv(view, n);
      }
      AdvanceOutgoing(n);
    }

    method AdvanceOutgoing(n: nat)
      requires Valid()
      modifies Repr()
      ensures Valid() && view == ReceiverSpec.WireWritten(old(view), n)
    {
      hide HeaderReader.Holds, RxCrc.Holds, RingHolds, EncHeader;
      var remaining := outgoing.len - outgoingOffset;
      outgoingOffset := outgoingOffset + Min(n, remaining);
      view := ReceiverSpec.WireWritten(view, n);
      if outgoingOffset >= outgoing.len {
        outgoing.Clear();
        outgoingOffset := 0;
      }
    }

    /** `n` more of the offered file bytes are persisted. The one error is an
        offset past 32 bits. */
    method FileWritten(n: nat) returns (r: Result<()>)
      requires Valid() && Inv(view)
      modifies Repr()
      ensures Valid() && Inv(view) && Did(ReceiverSpec.FileWritten(old(view), n), view, r)
      ensures r.Err? ==> r.error == OutOfMemory && old(view).count + |old(view).buf| > MAX_COUNT
    {
      hide Valid, Inv, ReceiverSpec.FinishSubpacket;
      FileWrittenInv(view, n);
      WrittenInside(view);
      var packet := Persist(n);
      if packet.None? {
        return Ok(());
      }
      r := FinishSubpacket(packet.value);
    }

    /** Moves the cursor, and gives the terminator once all of the data is out. */
    method Persist(n: nat) returns (done: Option<SubpacketType>)
      requires Valid() && view.written <= |view.buf|
      modifies this`bufWriteOffset, this`view
      ensures Valid()
      ensures !old(view).sub.Writing? ==> view == old(view) && done == None
      ensures old(view).sub.Writing? ==>
                view == old(view).(written := old(view).written + Min(n, |old(view).FileBytes()|))
                && done == if view.written < |view.buf| then None else Some(view.sub.kind)
    {
      hide HeaderReader.Holds, RxCrc.Holds, OutgoingHolds, RingHolds;
      if !subpacketState.Writing? {
        return None;
      }
      var remaining := buf.len - bufWriteOffset;
      bufWriteOffset := bufWriteOffset + Min(n, remaining);
      view := view.(written := bufWriteOffset);
      return if bufWriteOffset < buf.len then None else Some(subpacketState.kind);
    }

    /** The response timer ran out. */
    method Timeout() returns (r: Result<()>)
      requires Valid() && Inv(view)
      modifies Repr()
      ensures Valid() && Inv(view) && r.Ok? && Done(view) == ReceiverSpec.Timeout(old(view))
    {
      hide Buffer.Holds, HeaderReader.Holds, RxCrc.Holds, RingHolds, Inv;
      TimeoutInv(view);
      var outgoing := HasOutgoing();
      r := Ok(());
      if (state == SessionBegin || state == FileBegin) && !outgoing {
        r := QueueZrinit();
      }
    }

    method HasOutgoing() returns (b: bool)
      requires Valid()
      ensures b == view.out.Some?
    {
      hide HeaderReader.Holds, RxCrc.Holds, RingHolds, EncHeader;
      b := outgoingOffset < outgoing.len;
    }

    /** Manual mode: ask for the announced file from `offset`. */
    method AcceptFileAt(offset: u32) returns (r: Result<()>)
      requires Valid()
      modifies Repr()
      ensures Valid() && Did(ReceiverSpec.AcceptFileAt(old(view), offset), view, r)
      ensures old(Inv(view)) ==> Inv(view)
    {
      hide Buffer.Holds, HeaderReader.Holds, RxCrc.Holds, OutgoingHolds, RingHolds, Inv, ReceiverSpec.QueueZrpos;
      if old(Inv(view)) {
        AcceptFileAtInv(view, offset);
      }
      if state != FileAcceptPending {
        return Err(InvalidState);
      }
      r := QueueZrpos(offset);
      if r.Ok? {
        StartAt(offset);
      }
    }

    method StartAt(offset: u32)
      requires Valid()
      modifies this`count, this`state, this`fileActive, this`view
      ensures Valid() && view == old(view).(count := offset, phase := FileBegin, active := true)
    {
      hide Buffer.Holds, HeaderReader.Holds, RxCrc.Holds, OutgoingHolds, RingHolds;
      count := offset;
      state := FileBegin;
      fileActive := true;
      view := view.(count := offset, phase := FileBegin, active := true);
    }

    /** Manual mode: decline the announced file. */
    method SkipFile() returns (r: Result<()>)
      requires Valid()
      modifies Repr()
      ensures Valid() && Did(ReceiverSpec.SkipFile(old(view)), view, r)
      ensures old(Inv(view)) ==> Inv(view)
    {
      hide Buffer.Holds, HeaderReader.Holds, RxCrc.Holds, OutgoingHolds, RingHolds, Inv;
      if old(Inv(view)) {
        SkipFileInv(view);
      }
      if state != FileAcceptPending {
        return Err(InvalidState);
      }
      r := QueueHeader(ZSKIP_HEADER);
      if r.Err? {
        return;
      }
      CloseFile();
    }

    method SetManualFileAccept(manual: bool)
      requires Valid()
      modifies this`manualAccept, this`view
      ensures Valid() && view == old(view).(manual := manual)
    {
      hide Buffer.Holds, HeaderReader.Holds, RxCrc.Holds, OutgoingHolds, RingHolds;
      manualAccept := manual;
      view := view.(manual := manual);
    }

    /** What the caller has to do next: events first, then wire bytes, then file bytes. */
    method Poll() returns (a: Action)
      requires Valid() && Inv(view)
      modifies Repr()
      ensures Valid() && Inv(view) && view == ReceiverSpec.PopEvent(old(view)) && a == NextAction(old(view))
    {
      hide Valid, Inv;
      PopEventInv(view);
      WrittenInside(view);
      var event := PopEvent();
      if event.Some? {
        a := Announce(event.value);
        return;
      }
      var wire := DrainOutgoing();
      if wire != [] {
        return WriteWire(wire);
      }
      var file := DrainFile();
      a := if file != [] then WriteFile(file) else Action.Idle;
    }

    method Announce(event: Event) returns (a: Action)
      requires Valid()
      ensures a == Announcement(view, event)
    {
      hide HeaderReader.Holds, RxCrc.Holds, OutgoingHolds, RingHolds;
      a := match event
        case FileStart => FileStarted(fileName.bytes[..fileName.len], fileSize)
        case other => Happened(other);
    }

    method DrainOutgoing() returns (s: seq<byte>)
      requires Valid()
      ensures s == view.WireBytes()
    {
      hide HeaderReader.Holds, RxCrc.Holds, RingHolds, EncHeader;
      s := outgoing.bytes[outgoingOffset..outgoing.len];
      assert s == outgoing.Contents()[outgoingOffset..];
    }

    method DrainFile() returns (s: seq<byte>)
      requires Valid() && view.written <= |view.buf|
      ensures s == view.FileBytes()
    {
      hide HeaderReader.Holds, RxCrc.Holds, OutgoingHolds, RingHolds;
      s := if subpacketState.Writing? then buf.bytes[bufWriteOffset..buf.len] else [];
      assert subpacketState.Writing? ==> s == buf.Contents()[bufWriteOffset..];
    }
  }

  /** Indices of the ring after the head moved on. */
  lemma RingNext(head: nat, i: nat)
    requires head < EVENT_QUEUE_CAP && i < EVENT_QUEUE_CAP - 1
    ensures ((head + 1) % EVENT_QUEUE_CAP + i) % EVENT_QUEUE_CAP == (head + (i + 1)) % EVENT_QUEUE_CAP
    ensures (head + (i + 1)) % EVENT_QUEUE_CAP != head
  {
  }

  lemma PlainTurn(r: RxState, b: byte)
    requires r.CanRead() && r.InSubpacket() && r.sub.Reading? && !r.escapePending && b != ZDLE
    ensures Feed(r, [b]) == FedOf(TakeData(r, b))
  {
    hide TakeData;
    FeedOne(r, b);
  }

  lemma EscapeTurn(r: RxState)
    requires r.CanRead() && r.InSubpacket() && r.sub.Reading? && !r.escapePending
    ensures Feed(r, [ZDLE]) == Fed.Fed(r.(escapePending := true))
  {
    FeedOne(r, ZDLE);
  }

  lemma PairTurn(r: RxState, b: byte)
    requires r.CanRead() && r.InSubpacket() && r.sub.Reading? && !r.escapePending
    ensures Feed(r, [ZDLE, b]) == FedOf(TakeFollower(r, b))
  {
    hide TakeFollower;
    var p := r.(escapePending := true);
    assert TakeByte(r, ZDLE) == Done(p);
    assert p.(escapePending := false) == r;
    FeedTwo(r, ZDLE, b);
  }

  /** Turns follow one another. */
  lemma TurnsJoin(r: RxState, wire: seq<byte>, a: nat, b: nat, c: nat)
    requires a <= b <= c <= |wire| && Feed(r, wire[a..b]).Fed?
    ensures Feed(r, wire[a..c]) == Feed(Feed(r, wire[a..b]).rx, wire[b..c])
  {
    hide Feed;
    FeedConcat(r, wire[a..b], wire[b..c]);
    assert wire[a..b] + wire[b..c] == wire[a..c];
  }

  lemma NothingFed(r: RxState, wire: seq<byte>, at: nat)
    requires at <= |wire|
    ensures Feed(r, wire[at..at]) == Fed.Fed(r)
  {
  }

  lemma FollowerTurn(r: RxState, b: byte)
    requires r.CanRead() && r.InSubpacket() && r.sub.Reading? && r.escapePending
    ensures Feed(r, [b]) == FedOf(TakeFollower(r.(escapePending := false), b))
  {
    hide TakeFollower;
    FeedOne(r, b);
  }

  lemma SkippedTurn(r: RxState, b: byte)
    requires r.CanRead() && r.InSubpacket() && r.sub.SkipTrailer? && LineTrailer(b)
    ensures Feed(r, [b]) == Fed.Fed(r)
  {
    hide LineTrailer;
    FeedOne(r, b);
  }

  /** The first data byte after a line trailer is taken as in `Reading`. */
  lemma FirstTurn(r: RxState, wire: seq<byte>)
    requires r.CanRead() && r.InSubpacket() && r.sub.SkipTrailer? && !r.escapePending
    requires wire != [] && !LineTrailer(wire[0])
    ensures Feed(r, wire) == Feed(r.(sub := Reading), wire)
  {
    hide LineTrailer, TakePlain;
    assert TakeByte(r, wire[0]) == TakePlain(r.(sub := Reading), wire[0]);
    assert TakeByte(r.(sub := Reading), wire[0]) == TakePlain(r.(sub := Reading), wire[0]);
  }

  /** The trailer byte at the front of the input, if it is all there. */
  function TrailerRead(c: CrcState, e: Encoding, rest: seq<byte>): CrcStepped
  {
    var u := UnescRead(c.escapePending, rest);
    var held := c.(escapePending := u.0);
    if u.2.None? then CrcStepped(held, More) else TrailerByte(held, e, u.2.value)
  }

  /** A trailer that is not complete: nothing is left of the slice, or part of it is in. */
  lemma TrailerWaits(r: RxState, rest: seq<byte>)
    requires r.InSubpacket() && r.sub.Trailer?
    ensures
      var s := TrailerRead(r.crc, r.encoding, rest);
      s.verdict.More? ==>
        && Judged(r.(crc := s.crc), r.sub.kind, s.verdict) == Done(r.(crc := s.crc))
        && (UnescRead(r.crc.escapePending, rest).1 == |rest| || InTrailer(r.(crc := s.crc)))
  {
    hide CrcState.Expected;
  }

  lemma TrailerTurn(r: RxState, rest: seq<byte>)
    requires r.CanRead() && r.InSubpacket() && r.sub.Trailer?
    ensures
      var n := UnescRead(r.crc.escapePending, rest).1;
      var s := TrailerRead(r.crc, r.encoding, rest);
      && (rest != [] ==> n > 0)
      && Feed(r, rest[..n]) == FedOf(Judged(r.(crc := s.crc), r.sub.kind, s.verdict))
  {
    hide Judged, TrailerByte;
    var c := r.crc;
    if rest == [] {
      assert c.(escapePending := c.escapePending) == c;
      MoreWaits(r, r.sub.kind);
    } else if c.escapePending || rest[0] != ZDLE {
      var b := if c.escapePending then Uncover(rest[0]) else rest[0];
      assert CrcStep(c, r.encoding, rest[0]) == TrailerByte(c.(escapePending := false), r.encoding, b);
      assert rest[..1] == [rest[0]];
      FeedOne(r, rest[0]);
    } else {
      EscapedTrailerTurn(r, rest);
    }
  }

  lemma EscapedTrailerTurn(r: RxState, rest: seq<byte>)
    requires r.CanRead() && r.InSubpacket() && r.sub.Trailer? && !r.crc.escapePending
    requires rest != [] && rest[0] == ZDLE
    ensures
      var n := UnescRead(r.crc.escapePending, rest).1;
      var s := TrailerRead(r.crc, r.encoding, rest);
      n > 0 && Feed(r, rest[..n]) == FedOf(Judged(r.(crc := s.crc), r.sub.kind, s.verdict))
  {
    hide Judged, TrailerByte;
    var c := r.crc;
    var d := c.(escapePending := true);
    var p := r.(crc := d);
    assert CrcStep(c, r.encoding, ZDLE) == CrcStepped(d, More);
    MoreWaits(p, r.sub.kind);
    assert TakeByte(r, ZDLE) == Done(p);
    if |rest| == 1 {
      assert rest[..1] == [ZDLE];
      FeedOne(r, ZDLE);
    } else {
      var s := TrailerByte(c, r.encoding, Uncover(rest[1]));
      assert d.(escapePending := false) == c;
      assert CrcStep(d, r.encoding, rest[1]) == s;
      assert p.(crc := s.crc) == r.(crc := s.crc);
      assert rest[..2] == [ZDLE, rest[1]];
      FeedTwo(r, ZDLE, rest[1]);
    }
  }

  /** A call of the header reader, seen on the receiver. */
  lemma HeaderTurn(r: RxState, rest: seq<byte>)
    requires r.CanRead() && !r.InSubpacket()
    ensures
      var a := ReadChunk(r.reader, rest);
      && (rest != [] ==> a.taken > 0)
      && Feed(r, rest[..a.taken]) == FedOf(OnOutcome(r.(reader := a.reader), a.outcome))
  {
    hide ReadChunk, Feed, OnOutcome;
    var a := ReadChunk(r.reader, rest);
    if a.outcome.Nothing? {
      assert rest[..a.taken] == rest;
      ReaderFed(r, rest);
      NothingHappens(r.(reader := a.reader));
    } else {
      var taken := rest[..a.taken];
      ChunkAlone(r.reader, rest);
      OutcomeFed(r, taken);
    }
  }

  /** A run that breaks early breaks as a whole. */
  lemma {:induction false} BrokenEarly(r: RxState, wire: seq<byte>, n: nat)
    requires n <= |wire| && Feed(r, wire[..n]).Broken?
    ensures Feed(r, wire) == Feed(r, wire[..n])
    decreases |wire|
  {
    hide TakeByte, RxState.CanRead;
    if n > 0 && r.CanRead() {
      assert wire[..n][1..] == wire[1..][..n - 1];
      if TakeByte(r, wire[0]).Done? {
        BrokenEarly(TakeByte(r, wire[0]).rx, wire[1..], n - 1);
      }
    }
  }

  lemma WrittenInside(r: RxState)
    requires Inv(r)
    ensures r.written <= |r.buf|
  {
  }
}
