/** The ZSINIT handshake from one end to the other: header, line trailer, attention string,
    acknowledgement; exactly when an attention string gets through; and what the line
    trailer of a hex header does where it is not skipped. */
module ReceiverHandshake {
  import opened Primitives
  import opened Zdle
  import opened HeaderCodec
  import opened HeaderReading
  import opened Subpackets
  import opened ReceiverSpec
  import opened ReceiverInvariant
  import opened ReceiverFrames
  import opened ReceiverAnswers
  import opened WireVectors
  import Crc

  /** The bytes a line trailer is made of: CR, LF, XON and XOFF, with or without the high bit. */
  predicate IsLine(s: seq<byte>)
  {
    forall i :: 0 <= i < |s| ==> s[i] in {0x0D, 0x0A, 0x11, 0x13, 0x8D, 0x8A, 0x91, 0x93}
  }

  /** The encoding of the attention string: 16-bit binary behind a hex header. */
  function StringEncoding(e: Encoding): Encoding
  {
    if e == ZHEX then ZBIN else e
  }

  /** The state a ZSINIT header leaves. */
  function Greeted(r: RxState, e: Encoding): RxState
  {
    r.(phase := SinitReadingData, encoding := StringEncoding(e), reader := FRESH,
       sub := if e == ZHEX then SkipTrailer else Reading,
       buf := [], written := 0, crc := NO_CRC, escapePending := false)
  }

  /** The session begins over, with the acknowledgement on offer. */
  function Acknowledged(r: RxState, e: Encoding): RxState
  {
    r.(phase := SessionBegin, encoding := StringEncoding(e), reader := FRESH, sub := Resting,
       buf := [], written := 0, crc := NO_CRC, escapePending := false,
       out := Some(Header(ZHEX, ZACK, [0, 0, 0, 0])), sent := 0)
  }

  predicate Waits(r: RxState)
  {
    r.CanRead() && r.out.None? && r.phase == SessionBegin && r.reader.scan.Seeking?
  }

  lemma HeaderGreets(r: RxState, h: Header)
    requires Waits(r) && h.frame == ZSINIT
    ensures Feed(r, HeaderCore(h)) == Fed.Fed(Greeted(r, h.encoding))
  {
    hide Feed, HeaderCore, Header.Count;
    HeaderFed(r, h);
  }

  /** The line trailer is passed over. */
  lemma {:induction false} LineSkipped(r: RxState, line: seq<byte>)
    requires r.CanRead() && r.InSubpacket() && r.sub == SkipTrailer && IsLine(line)
    ensures Feed(r, line) == Fed.Fed(r)
    decreases |line|
  {
    if line != [] {
      assert LineTrailer(line[0]);
      assert TakeByte(r, line[0]) == Done(r);
      LineSkipped(r, line[1..]);
    }
  }

  /** Any other byte is the first of the string. */
  lemma LineEnds(r: RxState, wire: seq<byte>)
    requires r.CanRead() && r.InSubpacket() && r.sub == SkipTrailer && !r.escapePending
    requires wire != [] && wire[0] !in {0x0D, 0x0A, 0x11, 0x13, 0x8D, 0x8A, 0x91, 0x93}
    ensures Feed(r, wire) == Feed(r.(sub := Reading), wire)
  {
    hide TakeData, ReadStep, HandleHeader;
    var t := r.(sub := Reading);
    assert !LineTrailer(wire[0]);
    assert TakeByte(r, wire[0]) == TakePlain(t, wire[0]);
    assert TakeByte(t, wire[0]) == TakePlain(t, wire[0]);
  }

  /** How many bytes of an attention string behind a hex header go the way of the line
      trailer: LF travels bare, with or without the high bit. */
  function Eaten(attn: seq<byte>): (n: nat)
    ensures n <= |attn|
    ensures IsLine(attn[..n])
    ensures n < |attn| ==> attn[n] != 0x0A && attn[n] != 0x8A
  {
    if attn == [] || (attn[0] != 0x0A && attn[0] != 0x8A) then 0
    else
      var n := Eaten(attn[1..]);
      assert attn[..n + 1] == [attn[0]] + attn[1..][..n];
      n + 1
  }

  lemma {:induction false} EatenBare(attn: seq<byte>)
    ensures Esc(attn) == attn[..Eaten(attn)] + Esc(attn[Eaten(attn)..])
    decreases |attn|
  {
    if attn == [] || (attn[0] != 0x0A && attn[0] != 0x8A) {
      assert attn[0..] == attn;
    } else {
      var n := Eaten(attn[1..]);
      EatenBare(attn[1..]);
      assert EscByte(attn[0]) == [attn[0]];
      assert attn[..n + 1] == [attn[0]] + attn[1..][..n];
      assert attn[n + 1..] == attn[1..][n..];
    }
  }

  /** What is left of the string starts with no byte of a line trailer. */
  lemma RestStarts(attn: seq<byte>, k: SubpacketType, tail: seq<byte>)
    requires attn != [] ==> attn[0] != 0x0A && attn[0] != 0x8A
    ensures
      var wire := Esc(attn) + Mark(k) + tail;
      wire != [] && wire[0] !in {0x0D, 0x0A, 0x11, 0x13, 0x8D, 0x8A, 0x91, 0x93}
  {
    if attn != [] {
      assert Esc(attn) == EscByte(attn[0]) + Esc(attn[1..]);
    }
  }

  /** The bytes eaten cannot be told from nothing exactly if their own CRC-16 is zero. */
  lemma SealSurvives(attn: seq<byte>, n: nat, k: SubpacketType)
    requires n <= |attn|
    ensures
      var s := SubWire(k, attn[n..], Checksum(ZBIN, attn + [KindByte(k)]));
      s.Intact(ZBIN) <==> Crc.Crc16Of(attn[..n]) == 0
  {
    hide Crc.Register16, Crc.BeBytes16, KindByte;
    var eaten, rest := attn[..n], attn[n..] + [KindByte(k)];
    assert attn + [KindByte(k)] == eaten + rest;
    Crc.Register16Concat(Crc.INIT16, eaten, rest);
    var c := Crc.Register16(Crc.INIT16, eaten);
    if Crc.Register16(c, rest) == Crc.Register16(Crc.INIT16, rest) {
      Crc.SuffixInjective16(c, Crc.INIT16, rest);
    }
    if Checksum(ZBIN, eaten + rest) == Checksum(ZBIN, rest) {
      Crc.BeBytes16Injective(Crc.Crc16Of(eaten + rest), Crc.Crc16Of(rest));
    }
  }

  // ---------------------------------------------------------------------
  // The string
  // ---------------------------------------------------------------------

  lemma GreetedListens(r: RxState, e: Encoding)
    requires Waits(r)
    ensures
      var g := Greeted(r, e);
      g.CanRead() && g.InSubpacket() && g.out.None? && Listens(g.(sub := Reading))
  {
    Opened(Greeted(r, e).(sub := Reading), StringEncoding(e));
  }

  /** A string under the right checksum is acknowledged, one under a wrong one ends the run. */
  lemma StringJudged(r: RxState, e: Encoding, s: SubWire)
    requires Waits(r) && |s.data| <= 1024 && |s.sum| == CrcLen(StringEncoding(e))
    ensures
      var f := Feed(Greeted(r, e).(sub := Reading), s.Bytes());
      && (s.Intact(StringEncoding(e)) ==> f == Fed.Fed(Acknowledged(r, e)))
      && (!s.Intact(StringEncoding(e)) ==>
            && f.Broken? && f.error == (if e == ZBIN32 then UnexpectedCrc32 else UnexpectedCrc16)
            && f.rx.out.None? && f.rx.phase == SinitReadingData)
  {
    hide Feed, SubWire.Bytes, SubWire.Intact, Listens, CrcAfter, Checksum;
    var g := Greeted(r, e).(sub := Reading);
    GreetedListens(r, e);
    if s.Intact(StringEncoding(e)) {
      ListensReads(g);
      SubpacketFed(g, s);
    } else {
      DamageAnswered(g, s);
    }
  }

  lemma ListensReads(r: RxState)
    requires Listens(r)
    ensures Reads(r) && r.buf == []
  {
  }

  lemma LineSplit(line: seq<byte>, k: SubpacketType, attn: seq<byte>)
    ensures
      var n := Eaten(attn);
      var s := SubWire(k, attn[n..], Checksum(ZBIN, attn + [KindByte(k)]));
      line + EncSubpacket(ZBIN, k, attn) == (line + attn[..n]) + s.Bytes()
  {
    hide Esc, Checksum, Eaten;
    EatenBare(attn);
    var a, b, c := attn[..Eaten(attn)], Esc(attn[Eaten(attn)..]), Esc(Checksum(ZBIN, attn + [KindByte(k)]));
    assert line + (((a + b) + Mark(k)) + c) == (line + a) + ((b + Mark(k)) + c);
  }

  /** Behind a hex header the bytes of the string that look like a line trailer go with it. */
  lemma StringBehindLine(r: RxState, line: seq<byte>, k: SubpacketType, attn: seq<byte>)
    requires Waits(r) && IsLine(line) && |attn| <= 1024
    ensures
      var n := Eaten(attn);
      var s := SubWire(k, attn[n..], Checksum(ZBIN, attn + [KindByte(k)]));
      Feed(Greeted(r, ZHEX), line + EncSubpacket(ZBIN, k, attn)) == Feed(Greeted(r, ZHEX).(sub := Reading), s.Bytes())
  {
    hide Feed, Esc, Checksum, Mark, Listens, EncSubpacket;
    var n := Eaten(attn);
    var g, sum := Greeted(r, ZHEX), Checksum(ZBIN, attn + [KindByte(k)]);
    var s := SubWire(k, attn[n..], sum);
    GreetedListens(r, ZHEX);
    LineSplit(line, k, attn);
    LineSkipped(g, line + attn[..n]);
    FeedConcat(g, line + attn[..n], s.Bytes());
    RestStarts(attn[n..], k, Esc(sum));
    LineEnds(g, s.Bytes());
  }

  // ---------------------------------------------------------------------
  // Main results
  // ---------------------------------------------------------------------

  /** The handshake. A ZSINIT header in any encoding, behind a hex one any line trailer, and
      an attention string of at most 1024 bytes with any terminator: all of it is taken, the
      session begins over with nothing staged, and a ZACK with count zero is all that is on
      offer. The attention string of a hex header may begin with LF, which goes the way of
      the line trailer; then it is acknowledged if and only if the CRC-16 of what is lost is
      zero, and the checksum is reported as wrong otherwise. */
  lemma Handshake(r: RxState, h: Header, line: seq<byte>, k: SubpacketType, attn: seq<byte>)
    requires Waits(r) && h.frame == ZSINIT && |attn| <= 1024
    requires if h.encoding == ZHEX then IsLine(line) else line == []
    ensures
      var f := Feed(r, HeaderCore(h) + (line + EncSubpacket(StringEncoding(h.encoding), k, attn)));
      var lost := if h.encoding == ZHEX then attn[..Eaten(attn)] else [];
      && (Crc.Crc16Of(lost) == 0 ==> f == Fed.Fed(Acknowledged(r, h.encoding)))
      && (Crc.Crc16Of(lost) != 0 ==>
            f.Broken? && f.error == UnexpectedCrc16 && f.rx.out.None? && f.rx.phase == SinitReadingData)
  {
    hide Feed, HeaderCore, Greeted, Acknowledged, EncSubpacket, Crc.Register16, Checksum, SubWire.Intact, SubWire.Bytes;
    var d := StringEncoding(h.encoding);
    HeaderGreets(r, h);
    FeedConcat(r, HeaderCore(h), line + EncSubpacket(d, k, attn));
    if h.encoding == ZHEX {
      var n := Eaten(attn);
      var s := SubWire(k, attn[n..], Checksum(ZBIN, attn + [KindByte(k)]));
      StringBehindLine(r, line, k, attn);
      StringJudged(r, ZHEX, s);
      SealSurvives(attn, n, k);
    } else {
      NothingLost();
      assert line + EncSubpacket(d, k, attn) == EncSubpacket(d, k, attn);
      WholeString(r, h.encoding, k, attn);
    }
  }

  lemma NothingLost()
    ensures Crc.Crc16Of([]) == 0
  {
  }

  lemma WholeString(r: RxState, e: Encoding, k: SubpacketType, attn: seq<byte>)
    requires Waits(r) && |attn| <= 1024 && e != ZHEX
    ensures Feed(Greeted(r, e), EncSubpacket(e, k, attn)) == Fed.Fed(Acknowledged(r, e))
  {
    hide Feed, Acknowledged, SubWire.Bytes, Checksum;
    assert Greeted(r, e).(sub := Reading) == Greeted(r, e);
    StringJudged(r, e, Sealed(e, k, attn));
  }

  /** So an attention string that does not begin with LF is always acknowledged, the empty
      one included, and one that begins with one or two never is. */
  lemma WhatIsLost(attn: seq<byte>)
    ensures attn == [] || (attn[0] != 0x0A && attn[0] != 0x8A) ==> Crc.Crc16Of(attn[..Eaten(attn)]) == 0
    ensures 1 <= Eaten(attn) <= 2 ==> Crc.Crc16Of(attn[..Eaten(attn)]) != 0
  {
    hide Crc.Register16;
    var lost := attn[..Eaten(attn)];
    if Eaten(attn) == 0 {
      NothingLost();
      assert lost == [];
    } else if Eaten(attn) <= 2 {
      var zeros: seq<byte> := seq(|lost|, i => 0);
      NoWeight(zeros);
      assert lost[0] != zeros[0];
      if Crc.Crc16Of(lost) == 0 {
        Crc.RunInjective16(Crc.INIT16, lost, zeros);
      }
    }
  }

  lemma {:induction false} NoWeight(zeros: seq<byte>)
    requires forall i :: 0 <= i < |zeros| ==> zeros[i] == 0
    ensures Crc.Crc16Of(zeros) == 0
    decreases |zeros|
  {
    if zeros != [] {
      NoWeight(zeros[..|zeros| - 1]);
      assert Crc.Update16(0, 0) == 0;
    }
  }

  // ---------------------------------------------------------------------
  // The opening of lrzsz
  // ---------------------------------------------------------------------

  /** A byte that need not be escaped may be. */
  lemma EscapedAnyway(r: RxState, c: byte)
    requires Reads(r) && |r.buf| < 1024 && KindOf(c).None?
    ensures Feed(r, [0x18, c]) == Fed.Fed(Staged(r, [Uncover(c)])) && Reads(Staged(r, [Uncover(c)]))
  {
    hide CrcAfter, CrcState.Updated;
    CrcAfterSnoc(r.encoding, r.buf, Uncover(c));
    var p := r.(escapePending := true);
    assert TakeByte(r, 0x18) == Done(p);
    assert p.(escapePending := false) == r;
    assert TakeByte(p, c) == TakeData(r, Uncover(c));
    FeedTwo(r, 0x18, c);
  }

  lemma SumOfNul()
    ensures Checksum(ZBIN, [0x00, 0x6B]) == [0xDD, 0xCD]
  {
    hide Crc.Register16;
    assert Crc.Wide16(0x6B) == 0x6B00;
    assert Crc.Update16(0x0000, 0x00) == 0x0000;
    assert Crc.Update16(0x0000, 0x6B) == 0xDDCD;
    Crc.RegisterOne(Crc.INIT16, 0, 0x00);
    Crc.RegisterSnoc(Crc.INIT16, 0, [0x00], 0x6B);
    assert [0x00] + [0x6B] == [0x00, 0x6B];
    TwoOctets(0xDDCD, 0xDD, 0xCD);
  }

  /** An escaped NUL under ZCRCW and its checksum. */
  lemma NulString(r: RxState)
    requires Waits(r)
    ensures Feed(Greeted(r, ZHEX).(sub := Reading), [0x18, 0x40] + ([0x18, 0x6B] + [0xDD, 0xCD])) == Fed.Fed(Acknowledged(r, ZHEX))
  {
    hide Feed, Reads, Staged, AtTrailer, Checksum, CrcAfter, Esc, TrailerByte, CompleteSubpacket;
    var g := Greeted(r, ZHEX).(sub := Reading);
    GreetedListens(r, ZHEX);
    ListensReads(g);
    EscapedAnyway(g, 0x40);
    var d := Staged(g, [0x00]);
    MarkFed(d, ZCRCW);
    var t := AtTrailer(d, ZCRCW);
    AtTrailerReady(d, ZCRCW);
    StagedWhole(g, [0x00]);
    EscPlain([0xDD, 0xCD]);
    TrailerFed(t, [0xDD, 0xCD]);
    SumOfNul();
    assert [0x00] + [0x6B] == [0x00, 0x6B] && [] + [0xDD, 0xCD] == [0xDD, 0xCD];
    IncrementalIsBatch(ZBIN, [0x00, 0x6B]);
    FeedConcat(d, [0x18, 0x6B], [0xDD, 0xCD]);
    FeedConcat(g, [0x18, 0x40], [0x18, 0x6B] + [0xDD, 0xCD]);
    TrailerShape(d, ZCRCW);
    NulDone(r, t.(crc := t.crc.(got := [0xDD, 0xCD])));
  }

  lemma TrailerShape(r: RxState, k: SubpacketType)
    ensures AtTrailer(r, k) == r.(sub := Trailer(k), crc := AtTrailer(r, k).crc)
  {
    hide CrcAfter;
  }

  lemma NulDone(r: RxState, t: RxState)
    requires Waits(r)
    requires t == Greeted(r, ZHEX).(sub := Trailer(ZCRCW), buf := [0x00], crc := t.crc)
    ensures CompleteSubpacket(t, ZCRCW) == Done(Acknowledged(r, ZHEX))
  {
    hide StartFile, FinishSubpacket;
  }

  /** The 27 bytes with which lrzsz opens a session for a receiver of CRC-32: a hex ZSINIT,
      CR, LF with the high bit and XON, an escaped NUL, ZCRCW, a 16-bit checksum. */
  lemma LrzszOpening(r: RxState)
    requires Waits(r)
    ensures
      var wire :=
        [0x2A, 0x2A, 0x18, 0x42] + [0x30, 0x32, 0x30, 0x30, 0x30, 0x30, 0x30, 0x30, 0x34, 0x30, 0x30, 0x63, 0x34, 0x37] +
        ([0x0D, 0x8A, 0x11] + ([0x18, 0x40] + ([0x18, 0x6B] + [0xDD, 0xCD])));
      Feed(r, wire) == Fed.Fed(Acknowledged(r, ZHEX))
  {
    hide Feed, HeaderCore, Greeted, Acknowledged, Text, Crc.Crc16Of, Crc.BeBytes16;
    var h := Header(ZHEX, ZSINIT, [0, 0, 0, 0x40]);
    HexForm(h);
    SumOfZsinit();
    WriteZsinitText();
    assert [0x02] + [0x00, 0x00, 0x00, 0x40] == [0x02, 0x00, 0x00, 0x00, 0x40];
    assert [0x02, 0x00, 0x00, 0x00, 0x40] + [0x0C, 0x47] == [0x02, 0x00, 0x00, 0x00, 0x40, 0x0C, 0x47];
    var text := [0x18, 0x40] + ([0x18, 0x6B] + [0xDD, 0xCD]);
    HeaderGreets(r, h);
    FeedConcat(r, HeaderCore(h), [0x0D, 0x8A, 0x11] + text);
    LineThenText(r, [0x0D, 0x8A, 0x11], text);
    NulString(r);
  }

  lemma LineThenText(r: RxState, line: seq<byte>, text: seq<byte>)
    requires Waits(r) && IsLine(line)
    requires text != [] && text[0] !in {0x0D, 0x0A, 0x11, 0x13, 0x8D, 0x8A, 0x91, 0x93}
    ensures Feed(Greeted(r, ZHEX), line + text) == Feed(Greeted(r, ZHEX).(sub := Reading), text)
  {
    hide Feed, Listens;
    var g := Greeted(r, ZHEX);
    GreetedListens(r, ZHEX);
    LineSkipped(g, line);
    FeedConcat(g, line, text);
    LineEnds(g, text);
  }

  // ---------------------------------------------------------------------
  // Files behind hex headers
  // ---------------------------------------------------------------------

  /** Bytes that are no ZDLE are data as they stand. */
  lemma {:induction false} BareFed(r: RxState, bare: seq<byte>)
    requires Reads(r) && ZDLE !in bare && |r.buf| + |bare| <= 1024
    ensures Feed(r, bare) == Fed.Fed(Staged(r, bare)) && Reads(Staged(r, bare))
    decreases |bare|
  {
    hide Feed, Reads, CrcAfter;
    if bare == [] {
      FeedNothing(r);
      StagedNothing(r);
    } else {
      var t := Staged(r, [bare[0]]);
      BareByteFed(r, bare[0]);
      BareFed(t, bare[1..]);
      FeedConcat(r, [bare[0]], bare[1..]);
      assert bare == [bare[0]] + bare[1..];
      assert (r.buf + [bare[0]]) + bare[1..] == r.buf + bare;
    }
  }

  lemma BareByteFed(r: RxState, b: byte)
    requires Reads(r) && b != ZDLE && |r.buf| < 1024
    ensures Feed(r, [b]) == Fed.Fed(Staged(r, [b])) && Reads(Staged(r, [b]))
  {
    hide CrcAfter, CrcState.Updated;
    CrcAfterSnoc(r.encoding, r.buf, b);
    assert TakeByte(r, b) == TakeData(r, b);
    FeedOne(r, b);
  }

  const LINE_ENDING: seq<byte> := [0x0D, 0x0A, 0x11]

  lemma EndingWeighs()
    ensures Crc.Crc16Of(LINE_ENDING) != 0
  {
    hide Crc.Update16, Crc.Register16;
    EndingSteps();
    Crc.RegisterOne(Crc.INIT16, 0, 0x0D);
    Crc.RegisterSnoc(Crc.INIT16, 0, [0x0D], 0x0A);
    Crc.RegisterSnoc(Crc.INIT16, 0, [0x0D, 0x0A], 0x11);
    assert [0x0D] + [0x0A] == [0x0D, 0x0A] && [0x0D, 0x0A] + [0x11] == LINE_ENDING;
  }

  lemma EndingSteps()
    ensures Crc.Update16(0x0000, 0x0D) == 0xD1AD
    ensures Crc.Update16(0xD1AD, 0x0A) == 0xD716 && Crc.Update16(0xD716, 0x11) == 0xAF8A
  {
    assert Crc.Wide16(0x0D) == 0x0D00 && Crc.Wide16(0x0A) == 0x0A00 && Crc.Wide16(0x11) == 0x1100;
  }

  lemma EndingBare()
    ensures ZDLE !in LINE_ENDING && |LINE_ENDING| == 3
  {
  }

  lemma EndingStaged(r: RxState, data: seq<byte>)
    requires r.buf == []
    ensures
      var d := Staged(Staged(r, LINE_ENDING), data);
      && d == r.(buf := LINE_ENDING + data, crc := CrcAfter(r.encoding, LINE_ENDING + data))
      && Staged(r, LINE_ENDING).buf == LINE_ENDING
  {
    hide CrcAfter, LINE_ENDING;
    assert [] + LINE_ENDING == LINE_ENDING;
  }

  lemma SpoiledSum(k: SubpacketType, data: seq<byte>)
    ensures Checksum(ZHEX, data + [KindByte(k)]) != Checksum(ZHEX, LINE_ENDING + data + [KindByte(k)])
  {
    hide Crc.Register16, Crc.BeBytes16, LINE_ENDING, KindByte;
    var all := LINE_ENDING + data;
    EndingBare();
    assert all[..3] == LINE_ENDING && all[3..] == data;
    EndingWeighs();
    SealSurvives(all, 3, k);
  }

  /** Only a ZSINIT has its line trailer skipped. Behind a hex ZFILE or ZDATA it is taken
      for data, so that no metadata and no data gets through behind one that is written out
      whole: the checksum is wrong, whatever they are. */
  lemma EndingSpoils(r: RxState, k: SubpacketType, data: seq<byte>)
    requires Listens(r) && r.encoding == ZHEX && |data| <= 1021
    requires r.phase == FileReadingMetadata || r.phase == FileReadingSubpacket
    ensures
      var f := Feed(r, LINE_ENDING + Sealed(ZHEX, k, data).Bytes());
      && (r.phase == FileReadingSubpacket && r.retries < 10 ==>
            && f.Fed? && f.rx.out == Some(Header(ZHEX, ZRPOS, LeBytes(r.count))) && f.rx.phase == FileWaitingSubpacket
            && f.rx.count == r.count && f.rx.reader.resyncing)
      && (r.phase == FileReadingMetadata || r.retries >= 10 ==> f.Broken? && f.error == UnexpectedCrc16)
  {
    hide Feed, Reads, Staged, AtTrailer, Checksum, CrcAfter, Esc, Mark, CompleteSubpacket, LeBytes, LINE_ENDING;
    var sum := Checksum(ZHEX, data + [KindByte(k)]);
    EndingBare();
    EndingStaged(r, data);
    BareFed(r, LINE_ENDING);
    var v := Staged(r, LINE_ENDING);
    DataFed(v, data);
    var d := Staged(v, data);
    MarkFed(d, k);
    FeedConcat(v, Esc(data), Mark(k));
    AtTrailerReady(d, k);
    var t := AtTrailer(d, k);
    assert |sum| == CrcLen(t.encoding);
    TrailerFed(t, sum);
    IncrementalIsBatch(ZHEX, LINE_ENDING + data + [KindByte(k)]);
    SpoiledSum(k, data);
    assert [] + sum == sum;
    FeedConcat(v, Esc(data) + Mark(k), Esc(sum));
    FeedConcat(r, LINE_ENDING, Sealed(ZHEX, k, data).Bytes());
    TrailerShape(d, k);
  }

  /** So no file can be announced with a hex ZFILE that is written out whole. */
  lemma HexFileRefused(r: RxState, h: Header, k: SubpacketType, payload: seq<byte>)
    requires Hears(r) && (r.phase == SessionBegin || r.phase == FileBegin)
    requires h.frame == ZFILE && h.encoding == ZHEX && |payload| <= 1021
    ensures
      var f := Feed(r, EncHeader(h) + Sealed(ZHEX, k, payload).Bytes());
      f.Broken? && f.error == UnexpectedCrc16
  {
    hide Feed, HeaderCore, Inv, HandleHeader, Listens, Checksum, Sealed;
    var u, wire := HandleHeader(r, h).rx, Sealed(ZHEX, k, payload).Bytes();
    assert r.(reader := FRESH) == r;
    HeaderFed(r, h);
    ZfileHeard(r, h);
    Opened(u, ZHEX);
    EndingSpoils(u, k, payload);
    assert EncHeader(h) + wire == HeaderCore(h) + (LINE_ENDING + wire);
    FeedConcat(r, HeaderCore(h), LINE_ENDING + wire);
  }
}
