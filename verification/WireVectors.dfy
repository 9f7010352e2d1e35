/** The wire in numbers: codes, escapes, positions and whole headers, written out byte by
    byte, with the test vectors of the crate and the check values of its checksums. */
module WireVectors {
  import opened Primitives
  import opened Octets
  import opened Zdle
  import opened HeaderCodec
  import opened HeaderReading
  import opened HeaderOutcomes
  import opened Subpackets
  import opened FileMetadata
  import Crc

  // ---------------------------------------------------------------------
  // Codes
  // ---------------------------------------------------------------------

  lemma FirstCodes()
    ensures FrameByte(ZRQINIT) == 0 && FrameByte(ZRINIT) == 1 && FrameByte(ZSINIT) == 2 && FrameByte(ZACK) == 3
    ensures FrameByte(ZFILE) == 4 && FrameByte(ZSKIP) == 5 && FrameByte(ZNAK) == 6 && FrameByte(ZABORT) == 7
    ensures FrameByte(ZFIN) == 8 && FrameByte(ZRPOS) == 9
  {
  }

  lemma LastCodes()
    ensures FrameByte(ZDATA) == 10 && FrameByte(ZEOF) == 11 && FrameByte(ZFERR) == 12 && FrameByte(ZCRC) == 13
    ensures FrameByte(ZCHALLENGE) == 14 && FrameByte(ZCOMPL) == 15 && FrameByte(ZCAN) == 16
    ensures FrameByte(ZFREECNT) == 17 && FrameByte(ZCOMMAND) == 18 && FrameByte(ZSTDERR) == 19
  {
  }

  /** The code of every frame type, encoding and terminator. */
  lemma Codes()
    ensures FrameByte(ZRQINIT) == 0 && FrameByte(ZRINIT) == 1 && FrameByte(ZSINIT) == 2 && FrameByte(ZACK) == 3
    ensures FrameByte(ZFILE) == 4 && FrameByte(ZSKIP) == 5 && FrameByte(ZNAK) == 6 && FrameByte(ZABORT) == 7
    ensures FrameByte(ZFIN) == 8 && FrameByte(ZRPOS) == 9 && FrameByte(ZDATA) == 10 && FrameByte(ZEOF) == 11
    ensures FrameByte(ZFERR) == 12 && FrameByte(ZCRC) == 13 && FrameByte(ZCHALLENGE) == 14 && FrameByte(ZCOMPL) == 15
    ensures FrameByte(ZCAN) == 16 && FrameByte(ZFREECNT) == 17 && FrameByte(ZCOMMAND) == 18 && FrameByte(ZSTDERR) == 19
    ensures EncodingByte(ZBIN) == 0x41 && EncodingByte(ZHEX) == 0x42 && EncodingByte(ZBIN32) == 0x43
    ensures KindByte(ZCRCE) == 0x68 && KindByte(ZCRCG) == 0x69 && KindByte(ZCRCQ) == 0x6A && KindByte(ZCRCW) == 0x6B
  {
    hide FrameByte;
    FirstCodes();
    LastCodes();
  }

  /** Reading a code is the inverse of writing it. */
  lemma CodesRead(f: Frame, e: Encoding, k: SubpacketType)
    ensures FrameOf(FrameByte(f)) == Some(f) && EncodingOf(EncodingByte(e)) == Some(e) && KindOf(KindByte(k)) == Some(k)
  {
  }

  // ---------------------------------------------------------------------
  // Escapes and positions
  // ---------------------------------------------------------------------

  /** Eleven values travel behind a ZDLE: nine with bit 6 flipped, 0x7F as 'l' and 0xFF
      as 'm'; and what is read back is the value. */
  lemma Escapes(b: byte)
    ensures b in {0x0D, 0x10, 0x11, 0x13, 0x18, 0x8D, 0x90, 0x91, 0x93} ==> EscByte(b) == [0x18, b + 0x40]
    ensures b == 0x7F ==> EscByte(b) == [0x18, 0x6C]
    ensures b == 0xFF ==> EscByte(b) == [0x18, 0x6D]
    ensures b !in {0x0D, 0x10, 0x11, 0x13, 0x18, 0x7F, 0x8D, 0x90, 0x91, 0x93, 0xFF} ==> EscByte(b) == [b]
    ensures Unesc(false, EscByte(b)) == (false, [b])
  {
    UnescOne(b);
  }

  /** What a ZDLE makes of the byte behind it, whoever wrote it. */
  lemma Unescapes(b: byte)
    ensures UnescStep(false, 0x18) == (true, None)
    ensures b != 0x18 ==> UnescStep(false, b) == (false, Some(b))
    ensures 0x40 <= b < 0x60 || 0xC0 <= b < 0xE0 ==> UnescStep(true, b) == (false, Some(b - 0x40))
    ensures UnescStep(true, 0x6C) == (false, Some(0x7F)) && UnescStep(true, 0x6D) == (false, Some(0xFF))
    ensures !(0x40 <= b < 0x60 || 0xC0 <= b < 0xE0 || b == 0x6C || b == 0x6D) ==> UnescStep(true, b) == (false, Some(b))
  {
  }

  /** A position travels low byte first. */
  lemma Positions(h: Header, n: u32)
    ensures
      var f := h.WithCount(n).flags;
      var a: int, b: int, c: int, d: int := f[0], f[1], f[2], f[3];
      a + 0x100 * b + 0x1_0000 * c + 0x100_0000 * d == n
    ensures
      var a: int, b: int, c: int, d: int := h.flags[0], h.flags[1], h.flags[2], h.flags[3];
      h.Count() == a + 0x100 * b + 0x1_0000 * c + 0x100_0000 * d
    ensures h.WithCount(n).encoding == h.encoding && h.WithCount(n).frame == h.frame
  {
    hide LeBytes;
    LeParts(n);
  }

  lemma LeParts(n: u32)
    ensures
      var f := LeBytes(n);
      var a: int, b: int, c: int, d: int := f[0], f[1], f[2], f[3];
      a + 0x100 * b + 0x1_0000 * c + 0x100_0000 * d == n
  {
    hide LeBytes;
    LeRoundTrip(n);
  }


  // ---------------------------------------------------------------------
  // Checksums
  // ---------------------------------------------------------------------

  lemma Five16(a: byte, b: byte, c: byte, d: byte, e: byte, r: bv16, s: bv16, t: bv16, u: bv16, v: bv16)
    requires Crc.Update16(Crc.INIT16, a) == r && Crc.Update16(r, b) == s && Crc.Update16(s, c) == t
    requires Crc.Update16(t, d) == u && Crc.Update16(u, e) == v
    ensures Crc.Register16(Crc.INIT16, [a, b, c, d, e]) == v
  {
    hide Crc.Update16, Crc.Register16;
    Crc.RegisterOne(Crc.INIT16, 0, a);
    assert [a] + [b] == [a, b] && [a, b] + [c] == [a, b, c] && [a, b, c] + [d] == [a, b, c, d];
    assert [a, b, c, d] + [e] == [a, b, c, d, e];
    Crc.RegisterSnoc(Crc.INIT16, 0, [a], b);
    Crc.RegisterSnoc(Crc.INIT16, 0, [a, b], c);
    Crc.RegisterSnoc(Crc.INIT16, 0, [a, b, c], d);
    Crc.RegisterSnoc(Crc.INIT16, 0, [a, b, c, d], e);
  }

  lemma Five32(a: byte, b: byte, c: byte, d: byte, e: byte, r: bv32, s: bv32, t: bv32, u: bv32, v: bv32)
    requires Crc.Update32(Crc.INIT32, a) == r && Crc.Update32(r, b) == s && Crc.Update32(s, c) == t
    requires Crc.Update32(t, d) == u && Crc.Update32(u, e) == v
    ensures Crc.Register32(Crc.INIT32, [a, b, c, d, e]) == v
  {
    hide Crc.Update32, Crc.Register32;
    Crc.RegisterOne(0, Crc.INIT32, a);
    assert [a] + [b] == [a, b] && [a, b] + [c] == [a, b, c] && [a, b, c] + [d] == [a, b, c, d];
    assert [a, b, c, d] + [e] == [a, b, c, d, e];
    Crc.RegisterSnoc(0, Crc.INIT32, [a], b);
    Crc.RegisterSnoc(0, Crc.INIT32, [a, b], c);
    Crc.RegisterSnoc(0, Crc.INIT32, [a, b, c], d);
    Crc.RegisterSnoc(0, Crc.INIT32, [a, b, c, d], e);
  }

  lemma TwoOctets(c: bv16, hi: byte, lo: byte)
    requires (c >> 8) as bv8 == hi as bv8 && (c & 0xFF) as bv8 == lo as bv8
    ensures Crc.BeBytes16(c) == [hi, lo]
  {
    OctetRoundTrip(hi);
    OctetRoundTrip(lo);
  }

  lemma FourOctets(c: bv32, w: byte, x: byte, y: byte, z: byte)
    requires (c & 0xFF) as bv8 == w as bv8 && ((c >> 8) & 0xFF) as bv8 == x as bv8
    requires ((c >> 16) & 0xFF) as bv8 == y as bv8 && ((c >> 24) & 0xFF) as bv8 == z as bv8
    ensures Crc.LeBytes32(c) == [w, x, y, z]
  {
    OctetRoundTrip(w);
    OctetRoundTrip(x);
    OctetRoundTrip(y);
    OctetRoundTrip(z);
  }

  lemma SumOfOnes()
    ensures Checksum(ZHEX, [0x00, 0x01, 0x01, 0x01, 0x01]) == [0x62, 0x94]
    ensures Checksum(ZBIN, [0x00, 0x01, 0x01, 0x01, 0x01]) == [0x62, 0x94]
  {
    hide Crc.Register16;
    assert Crc.Update16(0x0000, 0x00) == 0x0000;
    assert Crc.Wide16(0x01) == 0x0100;
    assert Crc.Update16(0x0000, 0x01) == 0x1021;
    assert Crc.Wide16(0x01) == 0x0100;
    assert Crc.Update16(0x1021, 0x01) == 0x2310;
    assert Crc.Wide16(0x01) == 0x0100;
    assert Crc.Update16(0x2310, 0x01) == 0x1420;
    assert Crc.Wide16(0x01) == 0x0100;
    assert Crc.Update16(0x1420, 0x01) == 0x6294;
    Five16(0x00, 0x01, 0x01, 0x01, 0x01, 0x0000, 0x1021, 0x2310, 0x1420, 0x6294);
    TwoOctets(0x6294, 0x62, 0x94);
  }

  lemma SumOfZrinit1()
    ensures Crc.Update16(0x0000, 0x01) == 0x1021
  {
    assert Crc.Wide16(0x01) == 0x0100;
  }

  lemma SumOfZrinit2()
    ensures Crc.Update16(0x1021, 0x01) == 0x2310
  {
    assert Crc.Wide16(0x01) == 0x0100;
  }

  lemma SumOfZrinit3()
    ensures Crc.Update16(0x2310, 0x02) == 0x2443
  {
    assert Crc.Wide16(0x02) == 0x0200;
  }

  lemma SumOfZrinit4()
    ensures Crc.Update16(0x2443, 0x03) == 0x1785
  {
    assert Crc.Wide16(0x03) == 0x0300;
  }

  lemma SumOfZrinit5()
    ensures Crc.Update16(0x1785, 0x04) == 0xA752
  {
    assert Crc.Wide16(0x04) == 0x0400;
  }

  lemma SumOfZrinit()
    ensures Checksum(ZHEX, [0x01, 0x01, 0x02, 0x03, 0x04]) == [0xA7, 0x52]
    ensures Checksum(ZBIN, [0x01, 0x01, 0x02, 0x03, 0x04]) == [0xA7, 0x52]
  {
    hide Crc.Update16, Crc.Register16;
    SumOfZrinit1();
    SumOfZrinit2();
    SumOfZrinit3();
    SumOfZrinit4();
    SumOfZrinit5();
    Five16(0x01, 0x01, 0x02, 0x03, 0x04, 0x1021, 0x2310, 0x2443, 0x1785, 0xA752);
    TwoOctets(0xA752, 0xA7, 0x52);
  }

  lemma SumOfAbcd()
    ensures Checksum(ZHEX, [0x01, 0x0A, 0x0B, 0x0C, 0x0D]) == [0xA6, 0xCB]
    ensures Checksum(ZBIN, [0x01, 0x0A, 0x0B, 0x0C, 0x0D]) == [0xA6, 0xCB]
  {
    hide Crc.Register16;
    assert Crc.Wide16(0x01) == 0x0100;
    assert Crc.Update16(0x0000, 0x01) == 0x1021;
    assert Crc.Wide16(0x0A) == 0x0A00;
    assert Crc.Update16(0x1021, 0x0A) == 0x927B;
    assert Crc.Wide16(0x0B) == 0x0B00;
    assert Crc.Update16(0x927B, 0x0B) == 0x6990;
    assert Crc.Wide16(0x0C) == 0x0C00;
    assert Crc.Update16(0x6990, 0x0C) == 0xAC03;
    assert Crc.Wide16(0x0D) == 0x0D00;
    assert Crc.Update16(0xAC03, 0x0D) == 0xA6CB;
    Five16(0x01, 0x0A, 0x0B, 0x0C, 0x0D, 0x1021, 0x927B, 0x6990, 0xAC03, 0xA6CB);
    TwoOctets(0xA6CB, 0xA6, 0xCB);
  }

  lemma SumOfEscaped()
    ensures Checksum(ZHEX, [0x01, 0x0A, 0x7F, 0x0D, 0xFF]) == [0x5E, 0x6F]
    ensures Checksum(ZBIN, [0x01, 0x0A, 0x7F, 0x0D, 0xFF]) == [0x5E, 0x6F]
  {
    hide Crc.Register16;
    assert Crc.Wide16(0x01) == 0x0100;
    assert Crc.Update16(0x0000, 0x01) == 0x1021;
    assert Crc.Wide16(0x0A) == 0x0A00;
    assert Crc.Update16(0x1021, 0x0A) == 0x927B;
    assert Crc.Wide16(0x7F) == 0x7F00;
    assert Crc.Update16(0x927B, 0x7F) == 0x5783;
    assert Crc.Wide16(0x0D) == 0x0D00;
    assert Crc.Update16(0x5783, 0x0D) == 0x78BF;
    assert Crc.Wide16(0xFF) == 0xFF00;
    assert Crc.Update16(0x78BF, 0xFF) == 0x5E6F;
    Five16(0x01, 0x0A, 0x7F, 0x0D, 0xFF, 0x1021, 0x927B, 0x5783, 0x78BF, 0x5E6F);
    TwoOctets(0x5E6F, 0x5E, 0x6F);
  }

  lemma SumOfZnak()
    ensures Checksum(ZHEX, [0x06, 0x00, 0x00, 0x00, 0x00]) == [0xCD, 0x85]
    ensures Checksum(ZBIN, [0x06, 0x00, 0x00, 0x00, 0x00]) == [0xCD, 0x85]
  {
    hide Crc.Register16;
    assert Crc.Wide16(0x06) == 0x0600;
    assert Crc.Update16(0x0000, 0x06) == 0x60C6;
    assert Crc.Update16(0x60C6, 0x00) == 0xAAA6;
    assert Crc.Update16(0xAAA6, 0x00) == 0xB2A0;
    assert Crc.Update16(0xB2A0, 0x00) == 0x2799;
    assert Crc.Update16(0x2799, 0x00) == 0xCD85;
    Five16(0x06, 0x00, 0x00, 0x00, 0x00, 0x60C6, 0xAAA6, 0xB2A0, 0x2799, 0xCD85);
    TwoOctets(0xCD85, 0xCD, 0x85);
  }

  lemma SumOfZack()
    ensures Checksum(ZHEX, [0x03, 0x00, 0x00, 0x00, 0x00]) == [0xEE, 0xD2]
    ensures Checksum(ZBIN, [0x03, 0x00, 0x00, 0x00, 0x00]) == [0xEE, 0xD2]
  {
    hide Crc.Register16;
    assert Crc.Wide16(0x03) == 0x0300;
    assert Crc.Update16(0x0000, 0x03) == 0x3063;
    assert Crc.Update16(0x3063, 0x00) == 0x5553;
    assert Crc.Update16(0x5553, 0x00) == 0x5950;
    assert Crc.Update16(0x5950, 0x00) == 0x9BDC;
    assert Crc.Update16(0x9BDC, 0x00) == 0xEED2;
    Five16(0x03, 0x00, 0x00, 0x00, 0x00, 0x3063, 0x5553, 0x5950, 0x9BDC, 0xEED2);
    TwoOctets(0xEED2, 0xEE, 0xD2);
  }

  lemma SumOfZfin()
    ensures Checksum(ZHEX, [0x08, 0x00, 0x00, 0x00, 0x00]) == [0x02, 0x2D]
    ensures Checksum(ZBIN, [0x08, 0x00, 0x00, 0x00, 0x00]) == [0x02, 0x2D]
  {
    hide Crc.Register16;
    assert Crc.Wide16(0x08) == 0x0800;
    assert Crc.Update16(0x0000, 0x08) == 0x8108;
    assert Crc.Update16(0x8108, 0x00) == 0x89A9;
    assert Crc.Update16(0x89A9, 0x00) == 0xA9A1;
    assert Crc.Update16(0xA9A1, 0x00) == 0x85C3;
    assert Crc.Update16(0x85C3, 0x00) == 0x022D;
    Five16(0x08, 0x00, 0x00, 0x00, 0x00, 0x8108, 0x89A9, 0xA9A1, 0x85C3, 0x022D);
    TwoOctets(0x022D, 0x02, 0x2D);
  }

  lemma SumOfZsinit()
    ensures Checksum(ZHEX, [0x02, 0x00, 0x00, 0x00, 0x40]) == [0x0C, 0x47]
    ensures Checksum(ZBIN, [0x02, 0x00, 0x00, 0x00, 0x40]) == [0x0C, 0x47]
  {
    hide Crc.Register16;
    assert Crc.Wide16(0x02) == 0x0200;
    assert Crc.Update16(0x0000, 0x02) == 0x2042;
    assert Crc.Update16(0x2042, 0x00) == 0x6662;
    assert Crc.Update16(0x6662, 0x00) == 0x6E60;
    assert Crc.Update16(0x6E60, 0x00) == 0xED68;
    assert Crc.Wide16(0x40) == 0x4000;
    assert Crc.Update16(0xED68, 0x40) == 0x0C47;
    Five16(0x02, 0x00, 0x00, 0x00, 0x40, 0x2042, 0x6662, 0x6E60, 0xED68, 0x0C47);
    TwoOctets(0x0C47, 0x0C, 0x47);
  }

  lemma SumOfZeros32()
    ensures Checksum(ZBIN32, [0x00, 0x00, 0x00, 0x00, 0x00]) == [0x1D, 0xF7, 0x22, 0xC6]
  {
    hide Crc.Register32;
    assert Crc.Update32(0xFFFF_FFFF, 0x00) == 0x2DFD_1072;
    assert Crc.Update32(0x2DFD_1072, 0x00) == 0xBE26_ED00;
    assert Crc.Update32(0xBE26_ED00, 0x00) == 0x00BE_26ED;
    assert Crc.Update32(0x00BE_26ED, 0x00) == 0xDEBB_20E3;
    assert Crc.Update32(0xDEBB_20E3, 0x00) == 0x39DD_08E2;
    Five32(0x00, 0x00, 0x00, 0x00, 0x00, 0x2DFD_1072, 0xBE26_ED00, 0x00BE_26ED, 0xDEBB_20E3, 0x39DD_08E2);
    FourOctets(0xC622_F71D, 0x1D, 0xF7, 0x22, 0xC6);
  }

  lemma SumOfAbcd32()
    ensures Checksum(ZBIN32, [0x01, 0x0A, 0x0B, 0x0C, 0x0D]) == [0x99, 0xE2, 0xAE, 0x4A]
  {
    hide Crc.Register32;
    assert Crc.Update32(0xFFFF_FFFF, 0x01) == 0x5AFA_20E4;
    assert Crc.Update32(0x5AFA_20E4, 0x0A) == 0x47E8_355F;
    assert Crc.Update32(0x47E8_355F, 0x0B) == 0x6C41_7DD8;
    assert Crc.Update32(0x6C41_7DD8, 0x0C) == 0x81D2_57B0;
    assert Crc.Update32(0x81D2_57B0, 0x0D) == 0xB551_1D66;
    Five32(0x01, 0x0A, 0x0B, 0x0C, 0x0D, 0x5AFA_20E4, 0x47E8_355F, 0x6C41_7DD8, 0x81D2_57B0, 0xB551_1D66);
    FourOctets(0x4AAE_E299, 0x99, 0xE2, 0xAE, 0x4A);
  }

  // ---------------------------------------------------------------------
  // Headers
  // ---------------------------------------------------------------------

  /** The characters '0' to '9' and 'a' to 'f'. */
  function Digit(n: nat): byte
    requires n < 16
  {
    if n < 10 then 0x30 + n else 0x57 + n
  }

  /** Hex digits are written in lower case, and read in either. */
  lemma Digits(n: nat, c: byte)
    requires n < 16
    ensures HexDigit(n) == Digit(n) && HexValue(Digit(n)) == Some(n)
    ensures n >= 10 ==> HexValue(Digit(n) - 0x20) == Some(n)
    ensures !(0x30 <= c <= 0x39 || 0x41 <= c <= 0x46 || 0x61 <= c <= 0x66) ==> HexValue(c) == None
  {
  }

  lemma HexStep(b: byte, rest: seq<byte>)
    ensures Hex([b] + rest) == [Digit(b / 16), Digit(b % 16)] + Hex(rest)
  {
    hide HexDigit, Digit;
    Digits(b / 16, 0);
    Digits(b % 16, 0);
    assert ([b] + rest)[1..] == rest;
  }

  /** Two digits a byte, the high one first. */
  function Text(bytes: seq<byte>): seq<byte>
  {
    if bytes == [] then []
    else [Digit(bytes[0] / 16), Digit(bytes[0] % 16)] + Text(bytes[1..])
  }

  lemma {:induction false} HexIsText(bytes: seq<byte>)
    ensures Hex(bytes) == Text(bytes)
    decreases |bytes|
  {
    if bytes != [] {
      HexStep(bytes[0], bytes[1..]);
      HexIsText(bytes[1..]);
      assert bytes == [bytes[0]] + bytes[1..];
    }
  }

  /** A hex header: two ZPADs, ZDLE, 'B', seven bytes as text, CR LF, and XON for all but
      ZACK and ZFIN. The frame code comes before the flags, and the checksum behind them. */
  lemma HexForm(h: Header)
    requires h.encoding == ZHEX
    ensures
      var payload := [FrameByte(h.frame)] + h.flags;
      && HeaderCore(h) == [0x2A, 0x2A, 0x18, 0x42] + Text(payload + Crc.BeBytes16(Crc.Crc16Of(payload)))
      && EncHeader(h) == HeaderCore(h) + if FrameByte(h.frame) == 3 || FrameByte(h.frame) == 8 then [0x0D, 0x0A] else [0x0D, 0x0A, 0x11]
  {
    hide Crc.Register16, Crc.BeBytes16, Hex, Text, Esc;
    var sealed := Payload(h) + Crc.BeBytes16(Crc.Crc16Of(Payload(h)));
    EscPlain(Hex(sealed));
    HexIsText(sealed);
    Closings(h.frame);
  }

  lemma Closings(f: Frame)
    ensures f == ZACK || f == ZFIN <==> FrameByte(f) == 3 || FrameByte(f) == 8
  {
  }

  /** A binary header: one ZPAD, ZDLE, 'A' or 'C', and the same bytes escaped, under a
      checksum of 16 bits, high byte first, or of 32 bits, low byte first. */
  lemma BinaryForm(h: Header)
    requires h.encoding != ZHEX
    ensures
      var payload := [FrameByte(h.frame)] + h.flags;
      EncHeader(h) ==
      if h.encoding == ZBIN then [0x2A, 0x18, 0x41] + Esc(payload + Crc.BeBytes16(Crc.Crc16Of(payload)))
      else [0x2A, 0x18, 0x43] + Esc(payload + Crc.LeBytes32(Crc.Crc32Of(payload)))
  {
    hide Crc.Register16, Crc.Register32, Crc.BeBytes16, Crc.LeBytes32, Esc, FrameByte;
  }

  /** A subpacket: its data escaped, ZDLE and the terminator, and the checksum of both,
      escaped. */
  lemma SubpacketForm(e: Encoding, k: SubpacketType, data: seq<byte>)
    ensures
      var sealed := data + [KindByte(k)];
      EncSubpacket(e, k, data) ==
      Esc(data) + [0x18, KindByte(k)] +
      Esc(if e == ZBIN32 then Crc.LeBytes32(Crc.Crc32Of(sealed)) else Crc.BeBytes16(Crc.Crc16Of(sealed)))
  {
    hide Crc.Register16, Crc.Register32, Crc.BeBytes16, Crc.LeBytes32, Esc, KindByte;
  }

  lemma NoText()
    ensures Text([]) == []
  {
  }

  lemma TextStep(b: byte, rest: seq<byte>)
    ensures Text([b] + rest) == [Digit(b / 16), Digit(b % 16)] + Text(rest)
  {
    assert ([b] + rest)[1..] == rest;
  }

  lemma SevenText(a: byte, b: byte, c: byte, d: byte, e: byte, f: byte, g: byte)
    ensures Text([a, b, c, d, e, f, g]) ==
            [Digit(a / 16), Digit(a % 16), Digit(b / 16), Digit(b % 16), Digit(c / 16), Digit(c % 16),
             Digit(d / 16), Digit(d % 16), Digit(e / 16), Digit(e % 16), Digit(f / 16), Digit(f % 16),
             Digit(g / 16), Digit(g % 16)]
  {
    hide Text;
    NoText();
    TextStep(g, []);
    TextStep(f, [g]);
    TextStep(e, [f, g]);
    FourText(a, b, c, d, [e, f, g]);
    assert [g] + [] == [g] && [f] + [g] == [f, g] && [e] + [f, g] == [e, f, g];
    assert [a, b, c, d] + [e, f, g] == [a, b, c, d, e, f, g];
  }

  lemma FourText(a: byte, b: byte, c: byte, d: byte, rest: seq<byte>)
    ensures Text([a, b, c, d] + rest) ==
            [Digit(a / 16), Digit(a % 16), Digit(b / 16), Digit(b % 16), Digit(c / 16), Digit(c % 16),
             Digit(d / 16), Digit(d % 16)] + Text(rest)
  {
    hide Text;
    TextStep(d, rest);
    TextStep(c, [d] + rest);
    TextStep(b, [c] + ([d] + rest));
    TextStep(a, [b] + ([c] + ([d] + rest)));
    assert [a, b, c, d] + rest == [a] + ([b] + ([c] + ([d] + rest)));
  }

  // ---------------------------------------------------------------------
  // Whole headers, as the tests of the crate and a capture of lrzsz have them
  // ---------------------------------------------------------------------

  lemma WriteHexOnesText()
    ensures Text([0x00, 0x01, 0x01, 0x01, 0x01, 0x62, 0x94]) ==
            [0x30, 0x30, 0x30, 0x31, 0x30, 0x31, 0x30, 0x31, 0x30, 0x31, 0x36, 0x32, 0x39, 0x34]
  {
    hide Text;
    SevenText(0x00, 0x01, 0x01, 0x01, 0x01, 0x62, 0x94);
  }

  lemma WriteHexOnes()
    ensures EncHeader(Header(ZHEX, ZRQINIT, [1, 1, 1, 1])) ==
            [0x2A, 0x2A, 0x18, 0x42] +
            [0x30, 0x30, 0x30, 0x31, 0x30, 0x31, 0x30, 0x31, 0x30, 0x31, 0x36, 0x32, 0x39, 0x34] +
            [0x0D, 0x0A, 0x11]
  {
    hide EncHeader, HeaderCore, Text, Crc.Crc16Of, Crc.BeBytes16;
    HexForm(Header(ZHEX, ZRQINIT, [1, 1, 1, 1]));
    SumOfOnes();
    WriteHexOnesText();
    assert [0x00] + [0x01, 0x01, 0x01, 0x01] == [0x00, 0x01, 0x01, 0x01, 0x01];
    assert [0x00, 0x01, 0x01, 0x01, 0x01] + [0x62, 0x94] == [0x00, 0x01, 0x01, 0x01, 0x01, 0x62, 0x94];
  }

  lemma WriteZnakText()
    ensures Text([0x06, 0x00, 0x00, 0x00, 0x00, 0xCD, 0x85]) ==
            [0x30, 0x36, 0x30, 0x30, 0x30, 0x30, 0x30, 0x30, 0x30, 0x30, 0x63, 0x64, 0x38, 0x35]
  {
    hide Text;
    SevenText(0x06, 0x00, 0x00, 0x00, 0x00, 0xCD, 0x85);
  }

  /** The ZNAK that answers malformed wire. */
  lemma WriteZnak()
    ensures EncHeader(Header(ZHEX, ZNAK, [0, 0, 0, 0])) ==
            [0x2A, 0x2A, 0x18, 0x42] +
            [0x30, 0x36, 0x30, 0x30, 0x30, 0x30, 0x30, 0x30, 0x30, 0x30, 0x63, 0x64, 0x38, 0x35] +
            [0x0D, 0x0A, 0x11]
  {
    hide EncHeader, HeaderCore, Text, Crc.Crc16Of, Crc.BeBytes16;
    HexForm(Header(ZHEX, ZNAK, [0, 0, 0, 0]));
    SumOfZnak();
    WriteZnakText();
    assert [0x06] + [0x00, 0x00, 0x00, 0x00] == [0x06, 0x00, 0x00, 0x00, 0x00];
    assert [0x06, 0x00, 0x00, 0x00, 0x00] + [0xCD, 0x85] == [0x06, 0x00, 0x00, 0x00, 0x00, 0xCD, 0x85];
  }

  lemma WriteZackText()
    ensures Text([0x03, 0x00, 0x00, 0x00, 0x00, 0xEE, 0xD2]) ==
            [0x30, 0x33, 0x30, 0x30, 0x30, 0x30, 0x30, 0x30, 0x30, 0x30, 0x65, 0x65, 0x64, 0x32]
  {
    hide Text;
    SevenText(0x03, 0x00, 0x00, 0x00, 0x00, 0xEE, 0xD2);
  }

  /** A ZACK and a ZFIN have no XON behind them. */
  lemma WriteZack()
    ensures EncHeader(Header(ZHEX, ZACK, [0, 0, 0, 0])) ==
            [0x2A, 0x2A, 0x18, 0x42] +
            [0x30, 0x33, 0x30, 0x30, 0x30, 0x30, 0x30, 0x30, 0x30, 0x30, 0x65, 0x65, 0x64, 0x32] +
            [0x0D, 0x0A]
  {
    hide EncHeader, HeaderCore, Text, Crc.Crc16Of, Crc.BeBytes16;
    HexForm(Header(ZHEX, ZACK, [0, 0, 0, 0]));
    SumOfZack();
    WriteZackText();
    assert [0x03] + [0x00, 0x00, 0x00, 0x00] == [0x03, 0x00, 0x00, 0x00, 0x00];
    assert [0x03, 0x00, 0x00, 0x00, 0x00] + [0xEE, 0xD2] == [0x03, 0x00, 0x00, 0x00, 0x00, 0xEE, 0xD2];
  }

  lemma WriteZfinText()
    ensures Text([0x08, 0x00, 0x00, 0x00, 0x00, 0x02, 0x2D]) ==
            [0x30, 0x38, 0x30, 0x30, 0x30, 0x30, 0x30, 0x30, 0x30, 0x30, 0x30, 0x32, 0x32, 0x64]
  {
    hide Text;
    SevenText(0x08, 0x00, 0x00, 0x00, 0x00, 0x02, 0x2D);
  }

  lemma WriteZfin()
    ensures EncHeader(Header(ZHEX, ZFIN, [0, 0, 0, 0])) ==
            [0x2A, 0x2A, 0x18, 0x42] +
            [0x30, 0x38, 0x30, 0x30, 0x30, 0x30, 0x30, 0x30, 0x30, 0x30, 0x30, 0x32, 0x32, 0x64] +
            [0x0D, 0x0A]
  {
    hide EncHeader, HeaderCore, Text, Crc.Crc16Of, Crc.BeBytes16;
    HexForm(Header(ZHEX, ZFIN, [0, 0, 0, 0]));
    SumOfZfin();
    WriteZfinText();
    assert [0x08] + [0x00, 0x00, 0x00, 0x00] == [0x08, 0x00, 0x00, 0x00, 0x00];
    assert [0x08, 0x00, 0x00, 0x00, 0x00] + [0x02, 0x2D] == [0x08, 0x00, 0x00, 0x00, 0x00, 0x02, 0x2D];
  }

  lemma WriteZsinitText()
    ensures Text([0x02, 0x00, 0x00, 0x00, 0x40, 0x0C, 0x47]) ==
            [0x30, 0x32, 0x30, 0x30, 0x30, 0x30, 0x30, 0x30, 0x34, 0x30, 0x30, 0x63, 0x34, 0x37]
  {
    hide Text;
    SevenText(0x02, 0x00, 0x00, 0x00, 0x40, 0x0C, 0x47);
  }

  /** The ZSINIT of lrzsz. */
  lemma WriteZsinit()
    ensures EncHeader(Header(ZHEX, ZSINIT, [0, 0, 0, 0x40])) ==
            [0x2A, 0x2A, 0x18, 0x42] +
            [0x30, 0x32, 0x30, 0x30, 0x30, 0x30, 0x30, 0x30, 0x34, 0x30, 0x30, 0x63, 0x34, 0x37] +
            [0x0D, 0x0A, 0x11]
  {
    hide EncHeader, HeaderCore, Text, Crc.Crc16Of, Crc.BeBytes16;
    HexForm(Header(ZHEX, ZSINIT, [0, 0, 0, 0x40]));
    SumOfZsinit();
    WriteZsinitText();
    assert [0x02] + [0x00, 0x00, 0x00, 0x40] == [0x02, 0x00, 0x00, 0x00, 0x40];
    assert [0x02, 0x00, 0x00, 0x00, 0x40] + [0x0C, 0x47] == [0x02, 0x00, 0x00, 0x00, 0x40, 0x0C, 0x47];
  }
  lemma SumOfZeros()
    ensures Checksum(ZBIN, [0x00, 0x00, 0x00, 0x00, 0x00]) == [0x00, 0x00]
  {
    hide Crc.Register16;
    assert Crc.Update16(0x0000, 0x00) == 0x0000;
    Five16(0x00, 0x00, 0x00, 0x00, 0x00, 0x0000, 0x0000, 0x0000, 0x0000, 0x0000);
    TwoOctets(0x0000, 0x00, 0x00);
  }

  lemma WriteBinaryZeros()
    ensures EncHeader(Header(ZBIN, ZRQINIT, [0, 0, 0, 0])) ==
            [0x2A, 0x18, 0x41, 0x00, 0x00, 0x00, 0x00, 0x00, 0x00, 0x00]
  {
    hide EncHeader, Esc, Crc.Crc16Of, Crc.BeBytes16;
    BinaryForm(Header(ZBIN, ZRQINIT, [0, 0, 0, 0]));
    SumOfZeros();
    EscPlain([0x00, 0x00, 0x00, 0x00, 0x00, 0x00, 0x00]);
    assert [0x00] + [0x00, 0x00, 0x00, 0x00] == [0x00, 0x00, 0x00, 0x00, 0x00];
    assert [0x00, 0x00, 0x00, 0x00, 0x00] + [0x00, 0x00] == [0x00, 0x00, 0x00, 0x00, 0x00, 0x00, 0x00];
    assert [0x2A, 0x18, 0x41] + [0x00, 0x00, 0x00, 0x00, 0x00, 0x00, 0x00] == [0x2A, 0x18, 0x41, 0x00, 0x00, 0x00, 0x00, 0x00, 0x00, 0x00];
  }

  lemma WriteBinaryOnes()
    ensures EncHeader(Header(ZBIN, ZRQINIT, [1, 1, 1, 1])) ==
            [0x2A, 0x18, 0x41, 0x00, 0x01, 0x01, 0x01, 0x01, 0x62, 0x94]
  {
    hide EncHeader, Esc, Crc.Crc16Of, Crc.BeBytes16;
    BinaryForm(Header(ZBIN, ZRQINIT, [1, 1, 1, 1]));
    SumOfOnes();
    EscPlain([0x00, 0x01, 0x01, 0x01, 0x01, 0x62, 0x94]);
    assert [0x00] + [0x01, 0x01, 0x01, 0x01] == [0x00, 0x01, 0x01, 0x01, 0x01];
    assert [0x00, 0x01, 0x01, 0x01, 0x01] + [0x62, 0x94] == [0x00, 0x01, 0x01, 0x01, 0x01, 0x62, 0x94];
    assert [0x2A, 0x18, 0x41] + [0x00, 0x01, 0x01, 0x01, 0x01, 0x62, 0x94] == [0x2A, 0x18, 0x41, 0x00, 0x01, 0x01, 0x01, 0x01, 0x62, 0x94];
  }

  lemma WriteBinary32Zeros()
    ensures EncHeader(Header(ZBIN32, ZRQINIT, [0, 0, 0, 0])) ==
            [0x2A, 0x18, 0x43, 0x00, 0x00, 0x00, 0x00, 0x00, 0x1D, 0xF7, 0x22, 0xC6]
  {
    hide EncHeader, Esc, Crc.Crc32Of, Crc.LeBytes32;
    BinaryForm(Header(ZBIN32, ZRQINIT, [0, 0, 0, 0]));
    SumOfZeros32();
    EscPlain([0x00, 0x00, 0x00, 0x00, 0x00, 0x1D, 0xF7, 0x22, 0xC6]);
    assert [0x00] + [0x00, 0x00, 0x00, 0x00] == [0x00, 0x00, 0x00, 0x00, 0x00];
    assert [0x00, 0x00, 0x00, 0x00, 0x00] + [0x1D, 0xF7, 0x22, 0xC6] == [0x00, 0x00, 0x00, 0x00, 0x00, 0x1D, 0xF7, 0x22, 0xC6];
    assert [0x2A, 0x18, 0x43] + [0x00, 0x00, 0x00, 0x00, 0x00, 0x1D, 0xF7, 0x22, 0xC6] == [0x2A, 0x18, 0x43, 0x00, 0x00, 0x00, 0x00, 0x00, 0x1D, 0xF7, 0x22, 0xC6];
  }

  lemma {:induction false} UnescPlain(s: seq<byte>)
    requires ZDLE !in s
    ensures Unesc(false, s) == (false, s)
    decreases |s|
  {
    if s != [] {
      UnescPlain(s[1..]);
      assert s == [s[0]] + s[1..];
    }
  }

  /** A frame code below 20 read back is the frame. */
  lemma IsZrinit(f: Frame)
    requires FrameByte(f) == 1
    ensures f == ZRINIT
  {
  }

  lemma ReadHex()
    ensures ReadChunk(FRESH, [0x2A, 0x2A, 0x18, 0x42] + [0x30, 0x31, 0x30, 0x31, 0x30, 0x32, 0x30, 0x33, 0x30, 0x34, 0x61, 0x37, 0x35, 0x32]) ==
            Answer(FRESH, 18, Got(Header(ZHEX, ZRINIT, [0x01, 0x02, 0x03, 0x04])))
  {
    hide ReadChunk, Unesc, Checksum, Hex, Text;
    SumOfZrinit();
    UnescPlain([0x30, 0x31, 0x30, 0x31, 0x30, 0x32, 0x30, 0x33, 0x30, 0x34, 0x61, 0x37, 0x35, 0x32]);
    SevenText(0x01, 0x01, 0x02, 0x03, 0x04, 0xA7, 0x52);
    HexIsText([0x01, 0x01, 0x02, 0x03, 0x04, 0xA7, 0x52]);
    assert [0x01, 0x01, 0x02, 0x03, 0x04] + [0xA7, 0x52] == [0x01, 0x01, 0x02, 0x03, 0x04, 0xA7, 0x52];
    HeaderJudged(FRESH, ZHEX, [0x01, 0x01, 0x02, 0x03, 0x04], [0xA7, 0x52], [0x30, 0x31, 0x30, 0x31, 0x30, 0x32, 0x30, 0x33, 0x30, 0x34, 0x61, 0x37, 0x35, 0x32]);
    IsZrinit(ReadChunk(FRESH, Start(ZHEX) + [0x30, 0x31, 0x30, 0x31, 0x30, 0x32, 0x30, 0x33, 0x30, 0x34, 0x61, 0x37, 0x35, 0x32]).outcome.header.frame);
    assert [0x01, 0x01, 0x02, 0x03, 0x04][1..] == [0x01, 0x02, 0x03, 0x04];
  }

  lemma ReadBinary()
    ensures ReadChunk(FRESH, [0x2A, 0x18, 0x41] + [0x01, 0x0A, 0x0B, 0x0C, 0x0D, 0xA6, 0xCB]) ==
            Answer(FRESH, 10, Got(Header(ZBIN, ZRINIT, [0x0A, 0x0B, 0x0C, 0x0D])))
  {
    hide ReadChunk, Unesc, Checksum, Hex, Text;
    SumOfAbcd();
    UnescPlain([0x01, 0x0A, 0x0B, 0x0C, 0x0D, 0xA6, 0xCB]);
    assert [0x01, 0x0A, 0x0B, 0x0C, 0x0D] + [0xA6, 0xCB] == [0x01, 0x0A, 0x0B, 0x0C, 0x0D, 0xA6, 0xCB];
    HeaderJudged(FRESH, ZBIN, [0x01, 0x0A, 0x0B, 0x0C, 0x0D], [0xA6, 0xCB], [0x01, 0x0A, 0x0B, 0x0C, 0x0D, 0xA6, 0xCB]);
    IsZrinit(ReadChunk(FRESH, Start(ZBIN) + [0x01, 0x0A, 0x0B, 0x0C, 0x0D, 0xA6, 0xCB]).outcome.header.frame);
    assert [0x01, 0x0A, 0x0B, 0x0C, 0x0D][1..] == [0x0A, 0x0B, 0x0C, 0x0D];
  }

  lemma ReadBinary32()
    ensures ReadChunk(FRESH, [0x2A, 0x18, 0x43] + [0x01, 0x0A, 0x0B, 0x0C, 0x0D, 0x99, 0xE2, 0xAE, 0x4A]) ==
            Answer(FRESH, 12, Got(Header(ZBIN32, ZRINIT, [0x0A, 0x0B, 0x0C, 0x0D])))
  {
    hide ReadChunk, Unesc, Checksum, Hex, Text;
    SumOfAbcd32();
    UnescPlain([0x01, 0x0A, 0x0B, 0x0C, 0x0D, 0x99, 0xE2, 0xAE, 0x4A]);
    assert [0x01, 0x0A, 0x0B, 0x0C, 0x0D] + [0x99, 0xE2, 0xAE, 0x4A] == [0x01, 0x0A, 0x0B, 0x0C, 0x0D, 0x99, 0xE2, 0xAE, 0x4A];
    HeaderJudged(FRESH, ZBIN32, [0x01, 0x0A, 0x0B, 0x0C, 0x0D], [0x99, 0xE2, 0xAE, 0x4A], [0x01, 0x0A, 0x0B, 0x0C, 0x0D, 0x99, 0xE2, 0xAE, 0x4A]);
    IsZrinit(ReadChunk(FRESH, Start(ZBIN32) + [0x01, 0x0A, 0x0B, 0x0C, 0x0D, 0x99, 0xE2, 0xAE, 0x4A]).outcome.header.frame);
    assert [0x01, 0x0A, 0x0B, 0x0C, 0x0D][1..] == [0x0A, 0x0B, 0x0C, 0x0D];
  }

  lemma EscapedVector()
    ensures Unesc(false, [0x01, 0x0A, 0x18, 0x6C, 0x0D, 0x18, 0x6D, 0x5E, 0x6F]) ==
            (false, [0x01, 0x0A, 0x7F, 0x0D, 0xFF, 0x5E, 0x6F])
  {
    hide Unesc, EscByte;
    UnescPlain([0x01, 0x0A]);
    UnescOne(0x7F);
    UnescPlain([0x0D]);
    UnescOne(0xFF);
    UnescPlain([0x5E, 0x6F]);
    UnescConcat(false, [0x18, 0x6D], [0x5E, 0x6F]);
    UnescConcat(false, [0x0D], [0x18, 0x6D] + [0x5E, 0x6F]);
    UnescConcat(false, [0x18, 0x6C], [0x0D] + ([0x18, 0x6D] + [0x5E, 0x6F]));
    UnescConcat(false, [0x01, 0x0A], [0x18, 0x6C] + ([0x0D] + ([0x18, 0x6D] + [0x5E, 0x6F])));
    Escapes(0x7F);
    Escapes(0xFF);
    assert [0x01, 0x0A] + ([0x18, 0x6C] + ([0x0D] + ([0x18, 0x6D] + [0x5E, 0x6F]))) ==
           [0x01, 0x0A, 0x18, 0x6C, 0x0D, 0x18, 0x6D, 0x5E, 0x6F];
    assert [0x01, 0x0A] + ([0x7F] + ([0x0D] + ([0xFF] + [0x5E, 0x6F]))) == [0x01, 0x0A, 0x7F, 0x0D, 0xFF, 0x5E, 0x6F];
  }

  /** Flags of 0x7F and 0xFF travel as 'l' and 'm' behind a ZDLE. */
  lemma ReadEscaped()
    ensures ReadChunk(FRESH, [0x2A, 0x18, 0x41] + [0x01, 0x0A, 0x18, 0x6C, 0x0D, 0x18, 0x6D, 0x5E, 0x6F]) ==
            Answer(FRESH, 12, Got(Header(ZBIN, ZRINIT, [0x0A, 0x7F, 0x0D, 0xFF])))
  {
    hide ReadChunk, Unesc, Checksum, Hex, Text;
    SumOfEscaped();
    EscapedVector();
    assert [0x01, 0x0A, 0x7F, 0x0D, 0xFF] + [0x5E, 0x6F] == [0x01, 0x0A, 0x7F, 0x0D, 0xFF, 0x5E, 0x6F];
    HeaderJudged(FRESH, ZBIN, [0x01, 0x0A, 0x7F, 0x0D, 0xFF], [0x5E, 0x6F], [0x01, 0x0A, 0x18, 0x6C, 0x0D, 0x18, 0x6D, 0x5E, 0x6F]);
    IsZrinit(ReadChunk(FRESH, Start(ZBIN) + [0x01, 0x0A, 0x18, 0x6C, 0x0D, 0x18, 0x6D, 0x5E, 0x6F]).outcome.header.frame);
    assert [0x01, 0x0A, 0x7F, 0x0D, 0xFF][1..] == [0x0A, 0x7F, 0x0D, 0xFF];
  }

  // ---------------------------------------------------------------------
  // The check values of both checksums, over the digits 1 to 9
  // ---------------------------------------------------------------------

  lemma Check16Step1()
    ensures Crc.Update16(0x0000, 0x31) == 0x2672
  {
    assert Crc.Wide16(0x31) == 0x3100;
  }

  lemma Check16Step2()
    ensures Crc.Update16(0x2672, 0x32) == 0x20B5
  {
    assert Crc.Wide16(0x32) == 0x3200;
  }

  lemma Check16Step3()
    ensures Crc.Update16(0x20B5, 0x33) == 0x9752
  {
    assert Crc.Wide16(0x33) == 0x3300;
  }

  lemma Check16Step4()
    ensures Crc.Update16(0x9752, 0x34) == 0xD789
  {
    assert Crc.Wide16(0x34) == 0x3400;
  }

  lemma Check16Step5()
    ensures Crc.Update16(0xD789, 0x35) == 0x546C
  {
    assert Crc.Wide16(0x35) == 0x3500;
  }

  lemma Check16Step6()
    ensures Crc.Update16(0x546C, 0x36) == 0x20E4
  {
    assert Crc.Wide16(0x36) == 0x3600;
  }

  lemma Check16Step7()
    ensures Crc.Update16(0x20E4, 0x37) == 0x86D6
  {
    assert Crc.Wide16(0x37) == 0x3700;
  }

  lemma Check16Step8()
    ensures Crc.Update16(0x86D6, 0x38) == 0x9015
  {
    assert Crc.Wide16(0x38) == 0x3800;
  }

  lemma Check16Step9()
    ensures Crc.Update16(0x9015, 0x39) == 0x31C3
  {
    assert Crc.Wide16(0x39) == 0x3900;
  }

  lemma CheckValue16()
    ensures Crc.Crc16Of([0x31, 0x32, 0x33, 0x34, 0x35, 0x36, 0x37, 0x38, 0x39]) == 0x31C3
  {
    hide Crc.Update16, Crc.Register16;
    Check16Step1();
    Check16Step2();
    Check16Step3();
    Check16Step4();
    Check16Step5();
    Check16Step6();
    Check16Step7();
    Check16Step8();
    Check16Step9();
    Five16(0x31, 0x32, 0x33, 0x34, 0x35, 0x2672, 0x20B5, 0x9752, 0xD789, 0x546C);
    Crc.RegisterSnoc(Crc.INIT16, 0, [0x31, 0x32, 0x33, 0x34, 0x35], 0x36);
    assert [0x31, 0x32, 0x33, 0x34, 0x35] + [0x36] == [0x31, 0x32, 0x33, 0x34, 0x35, 0x36];
    Crc.RegisterSnoc(Crc.INIT16, 0, [0x31, 0x32, 0x33, 0x34, 0x35, 0x36], 0x37);
    assert [0x31, 0x32, 0x33, 0x34, 0x35, 0x36] + [0x37] == [0x31, 0x32, 0x33, 0x34, 0x35, 0x36, 0x37];
    Crc.RegisterSnoc(Crc.INIT16, 0, [0x31, 0x32, 0x33, 0x34, 0x35, 0x36, 0x37], 0x38);
    assert [0x31, 0x32, 0x33, 0x34, 0x35, 0x36, 0x37] + [0x38] == [0x31, 0x32, 0x33, 0x34, 0x35, 0x36, 0x37, 0x38];
    Crc.RegisterSnoc(Crc.INIT16, 0, [0x31, 0x32, 0x33, 0x34, 0x35, 0x36, 0x37, 0x38], 0x39);
    assert [0x31, 0x32, 0x33, 0x34, 0x35, 0x36, 0x37, 0x38] + [0x39] == [0x31, 0x32, 0x33, 0x34, 0x35, 0x36, 0x37, 0x38, 0x39];
  }

  lemma Check32Step1()
    ensures Crc.Update32(0xFFFF_FFFF, 0x31) == 0x7C23_1048
  {
    assert Crc.Wide32(0x31) == 0x0000_0031;
  }

  lemma Check32Step2()
    ensures Crc.Update32(0x7C23_1048, 0x32) == 0xB0AC_BB32
  {
    assert Crc.Wide32(0x32) == 0x0000_0032;
  }

  lemma Check32Step3()
    ensures Crc.Update32(0xB0AC_BB32, 0x33) == 0x77B7_9C2D
  {
    assert Crc.Wide32(0x33) == 0x0000_0033;
  }

  lemma Check32Step4()
    ensures Crc.Update32(0x77B7_9C2D, 0x34) == 0x641C_1F5C
  {
    assert Crc.Wide32(0x34) == 0x0000_0034;
  }

  lemma Check32Step5()
    ensures Crc.Update32(0x641C_1F5C, 0x35) == 0x340A_C5E3
  {
    assert Crc.Wide32(0x35) == 0x0000_0035;
  }

  lemma Check32Step6()
    ensures Crc.Update32(0x340A_C5E3, 0x36) == 0xF68D_2C9E
  {
    assert Crc.Wide32(0x36) == 0x0000_0036;
  }

  lemma Check32Step7()
    ensures Crc.Update32(0xF68D_2C9E, 0x37) == 0xAFFC_9660
  {
    assert Crc.Wide32(0x37) == 0x0000_0037;
  }

  lemma Check32Step8()
    ensures Crc.Update32(0xAFFC_9660, 0x38) == 0x651F_2550
  {
    assert Crc.Wide32(0x38) == 0x0000_0038;
  }

  lemma Check32Step9()
    ensures Crc.Update32(0x651F_2550, 0x39) == 0x340B_C6D9
  {
    assert Crc.Wide32(0x39) == 0x0000_0039;
  }

  lemma CheckValue32()
    ensures Crc.Crc32Of([0x31, 0x32, 0x33, 0x34, 0x35, 0x36, 0x37, 0x38, 0x39]) == 0xCBF4_3926
  {
    hide Crc.Update32, Crc.Register32;
    Check32Step1();
    Check32Step2();
    Check32Step3();
    Check32Step4();
    Check32Step5();
    Check32Step6();
    Check32Step7();
    Check32Step8();
    Check32Step9();
    Five32(0x31, 0x32, 0x33, 0x34, 0x35, 0x7C23_1048, 0xB0AC_BB32, 0x77B7_9C2D, 0x641C_1F5C, 0x340A_C5E3);
    Crc.RegisterSnoc(0, Crc.INIT32, [0x31, 0x32, 0x33, 0x34, 0x35], 0x36);
    assert [0x31, 0x32, 0x33, 0x34, 0x35] + [0x36] == [0x31, 0x32, 0x33, 0x34, 0x35, 0x36];
    Crc.RegisterSnoc(0, Crc.INIT32, [0x31, 0x32, 0x33, 0x34, 0x35, 0x36], 0x37);
    assert [0x31, 0x32, 0x33, 0x34, 0x35, 0x36] + [0x37] == [0x31, 0x32, 0x33, 0x34, 0x35, 0x36, 0x37];
    Crc.RegisterSnoc(0, Crc.INIT32, [0x31, 0x32, 0x33, 0x34, 0x35, 0x36, 0x37], 0x38);
    assert [0x31, 0x32, 0x33, 0x34, 0x35, 0x36, 0x37] + [0x38] == [0x31, 0x32, 0x33, 0x34, 0x35, 0x36, 0x37, 0x38];
    Crc.RegisterSnoc(0, Crc.INIT32, [0x31, 0x32, 0x33, 0x34, 0x35, 0x36, 0x37, 0x38], 0x39);
    assert [0x31, 0x32, 0x33, 0x34, 0x35, 0x36, 0x37, 0x38] + [0x39] == [0x31, 0x32, 0x33, 0x34, 0x35, 0x36, 0x37, 0x38, 0x39];
  }

  // ---------------------------------------------------------------------
  // Metadata
  // ---------------------------------------------------------------------

  lemma DecimalStep(digits: seq<byte>, d: byte)
    requires AllDigits(digits) && 0x30 <= d <= 0x39
    ensures AllDigits(digits + [d]) && ValueOf(digits + [d]) == 10 * ValueOf(digits) + (d - 0x30)
  {
    assert (digits + [d])[..|digits|] == digits;
  }

  /** The worth of a digit is ten times that of the next. */
  lemma {:induction false} LeadingDigit(d: byte, digits: seq<byte>)
    requires AllDigits(digits) && 0x30 <= d <= 0x39
    ensures AllDigits([d] + digits)
    ensures ValueOf([d] + digits) == (d - 0x30) * Power(|digits|) + ValueOf(digits)
    decreases |digits|
  {
    hide ValueOf, Power;
    NoDigits();
    if digits == [] {
      DecimalStep([], d);
      assert [] + [d] == [d] + digits;
    } else {
      var head, last := digits[..|digits| - 1], digits[|digits| - 1];
      LeadingDigit(d, head);
      DecimalStep([d] + head, last);
      DecimalStep(head, last);
      assert [d] + digits == ([d] + head) + [last] && digits == head + [last];
      Tenfold(d - 0x30, |head|);
    }
  }

  lemma NoDigits()
    ensures ValueOf([]) == 0 && Power(0) == 1
  {
  }

  function Power(k: nat): nat
  {
    if k == 0 then 1 else 10 * Power(k - 1)
  }

  lemma Tenfold(a: nat, k: nat)
    ensures 10 * (a * Power(k)) == a * Power(k + 1)
  {
    assert Power(k + 1) == 10 * Power(k);
  }

  /** What is announced for a file: its name, a NUL, its size in decimal without leading
      zeros, a NUL. */
  lemma MetadataForm(name: seq<byte>, size: u32)
    ensures
      var digits := Decimal(size);
      && Metadata(name, size) == name + [0x00] + digits + [0x00]
      && AllDigits(digits) && ValueOf(digits) == size && (|digits| > 1 ==> digits[0] != 0x30)
  {
    hide Decimal, ValueOf;
    DecimalValue(size);
    NoLeadingZero(size);
  }

  lemma {:induction false} NoLeadingZero(n: nat)
    ensures |Decimal(n)| > 1 ==> Decimal(n)[0] != 0x30
    ensures n > 0 ==> Decimal(n)[0] != 0x30
  {
    if n >= 10 {
      NoLeadingZero(n / 10);
    }
  }

  /** The largest size, and one more. */
  lemma SizeLimit()
    ensures SizeOf(Decimal(0xFFFF_FFFF)) == Ok(0xFFFF_FFFF) && SizeOf(Decimal(0x1_0000_0000)) == Err(MalformedFileSize)
    ensures SizeOf([]) == Ok(0) && SizeOf([0x31, 0x32, 0x30]) == Ok(120)
  {
    hide Decimal;
    DecimalValue(0xFFFF_FFFF);
    DecimalValue(0x1_0000_0000);
    DecimalStep([], 0x31);
    DecimalStep([0x31], 0x32);
    DecimalStep([0x31, 0x32], 0x30);
    assert [] + [0x31] == [0x31] && [0x31] + [0x32] == [0x31, 0x32] && [0x31, 0x32] + [0x30] == [0x31, 0x32, 0x30];
  }
}
