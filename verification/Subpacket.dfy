/** Data subpackets: how one is written, the running checksum of the side that
    reads it, and why its bytes cannot be taken for a header. */
module Subpackets {
  import opened Primitives
  import opened Zdle
  import opened Buffers
  import opened HeaderCodec
  import opened HeaderReading
  import Crc

  const SUBPACKET_MAX_SIZE: nat := 1024
  const SUBPACKET_PER_ACK: nat := 10
  const MAX_HEADER_ESCAPED: nat := 128
  const MAX_SUBPACKET_ESCAPED: nat := SUBPACKET_MAX_SIZE * 2 + 2 + 8
  const WIRE_BUF_SIZE: nat := MAX_HEADER_ESCAPED + MAX_SUBPACKET_ESCAPED

  datatype SubpacketType = ZCRCE | ZCRCG | ZCRCQ | ZCRCW

  function KindByte(k: SubpacketType): (b: byte)
    ensures 0x68 <= b <= 0x6B
  {
    match k
    case ZCRCE => 0x68
    case ZCRCG => 0x69
    case ZCRCQ => 0x6A
    case ZCRCW => 0x6B
  }

  function KindOf(b: byte): (k: Option<SubpacketType>)
    ensures k.Some? <==> 0x68 <= b <= 0x6B
    ensures k.Some? ==> KindByte(k.value) == b
  {
    match b
    case 0x68 => Some(ZCRCE)
    case 0x69 => Some(ZCRCG)
    case 0x6A => Some(ZCRCQ)
    case 0x6B => Some(ZCRCW)
    case _ => None
  }

  lemma KindRoundTrip(k: SubpacketType)
    ensures KindOf(KindByte(k)) == Some(k)
  {
  }

  // ---------------------------------------------------------------------
  // On the wire
  // ---------------------------------------------------------------------

  /** A subpacket with whatever checksum bytes it carries. */
  datatype SubWire = SubWire(kind: SubpacketType, data: seq<byte>, sum: seq<byte>) {
    function Bytes(): seq<byte>
    {
      Esc(data) + Mark(kind) + Esc(sum)
    }

    /** The checksum is the one the data and the terminator call for. */
    predicate Intact(e: Encoding)
    {
      sum == Checksum(e, data + [KindByte(kind)])
    }
  }

  function Sealed(e: Encoding, kind: SubpacketType, data: seq<byte>): (s: SubWire)
    ensures s.Intact(e)
  {
    SubWire(kind, data, Checksum(e, data + [KindByte(kind)]))
  }

  function EncSubpacket(e: Encoding, kind: SubpacketType, data: seq<byte>): seq<byte>
  {
    Sealed(e, kind, data).Bytes()
  }

  lemma SubpacketSize(e: Encoding, kind: SubpacketType, data: seq<byte>)
    ensures |EncSubpacket(e, kind, data)| <= 2 * |data| + 2 + 8
  {
    EscSize(data);
    EscSize(Checksum(e, data + [KindByte(kind)]));
  }

  function Mark(kind: SubpacketType): seq<byte>
  {
    [ZDLE, KindByte(kind)]
  }

  method WriteMark(port: Buffer, kind: SubpacketType) returns (all: bool)
    requires port.Valid()
    modifies port`len, port.bytes
    ensures port.Valid() && Took(old(port.Contents()), port.capacity, Mark(kind), port.Contents(), all)
  {
    ghost var before := port.Contents();
    assert [ZDLE] + [KindByte(kind)] == Mark(kind);
    all := WriteByte(port, ZDLE);
    ghost var mid := port.Contents();
    if !all {
      TookShort(before, port.capacity, [ZDLE], mid, [KindByte(kind)]);
      return;
    }
    all := WriteByte(port, KindByte(kind));
    TookThen(before, port.capacity, [ZDLE], mid, [KindByte(kind)], port.Contents(), all);
  }

  /** Writes a subpacket through the sink. A hex encoding is refused, but only
      after the data and the terminator went out. */
  method WriteSubpacket(port: Buffer, e: Encoding, kind: SubpacketType, data: seq<byte>)
    returns (r: Result<bool>)
    requires port.Valid()
    modifies port`len, port.bytes
    ensures port.Valid()
    ensures e != ZHEX ==>
              r.Ok? && Took(old(port.Contents()), port.capacity, EncSubpacket(e, kind, data), port.Contents(), r.value)
    ensures e == ZHEX ==>
              Took(old(port.Contents()), port.capacity, Esc(data) + Mark(kind), port.Contents(), r.Err?)
              && (if r.Err? then r.error == UnsupportedFeature else !r.value)
  {
    hide Took, Esc, Checksum, Mark;
    ghost var before, cap := port.Contents(), port.capacity;
    ghost var escaped, mark, sum := Esc(data), Mark(kind), Esc(Checksum(e, data + [KindByte(kind)]));
    EncParts(e, kind, data);
    var all := WriteSliceEscaped(port, data);
    ghost var mid := port.Contents();
    if !all {
      TookShort(before, cap, escaped, mid, mark);
      TookShort(before, cap, escaped + mark, mid, sum);
      return Ok(false);
    }
    all := WriteMark(port, kind);
    ghost var last := port.Contents();
    TookThen(before, cap, escaped, mid, mark, last, all);
    if !all {
      TookShort(before, cap, escaped + mark, last, sum);
      return Ok(false);
    }
    if e == ZHEX {
      return Err(UnsupportedFeature);
    }
    var check := SumWithKind(e, kind, data);
    all := WriteSliceEscaped(port, check);
    TookThen(before, cap, escaped + mark, last, sum, port.Contents(), all);
    return Ok(all);
  }

  lemma EncParts(e: Encoding, kind: SubpacketType, data: seq<byte>)
    ensures EncSubpacket(e, kind, data) ==
            (Esc(data) + Mark(kind)) + Esc(Checksum(e, data + [KindByte(kind)]))
  {
  }

  /** The checksum over the data and then the terminator, fed in two parts. */
  method SumWithKind(e: Encoding, kind: SubpacketType, data: seq<byte>) returns (sum: seq<byte>)
    ensures sum == Checksum(e, data + [KindByte(kind)])
  {
    if e == ZBIN32 {
      var crc := new Crc.Crc32();
      crc.Update(data);
      Crc.RegisterSnoc(0, Crc.INIT32, data, KindByte(kind));
      crc.UpdateByte(KindByte(kind));
      var c := crc.Finalize();
      sum := Crc.LeBytes32(c);
    } else {
      var crc := new Crc.Crc16();
      crc.Update(data);
      Crc.RegisterSnoc(Crc.INIT16, 0, data, KindByte(kind));
      crc.UpdateByte(KindByte(kind));
      var c := crc.Finalize();
      sum := Crc.BeBytes16(c);
    }
  }

  // ---------------------------------------------------------------------
  // No subpacket contains a header
  // ---------------------------------------------------------------------

  lemma SubpacketStray(s: SubWire)
    ensures NoFakeHeader(s.Bytes())
  {
    EscapedLanguage(s.data);
    EscapedLanguage(s.sum);
    var mark := Mark(s.kind);
    assert NoFakeHeader(mark);
    NoFakeHeaderConcat(Esc(s.data), mark);
    NoFakeHeaderConcat(Esc(s.data) + mark, Esc(s.sum));
  }

  function Wires(subs: seq<SubWire>): seq<byte>
  {
    if subs == [] then [] else subs[0].Bytes() + Wires(subs[1..])
  }

  lemma {:induction false} WiresStray(subs: seq<SubWire>)
    ensures NoFakeHeader(Wires(subs))
    decreases |subs|
  {
    if subs != [] {
      SubpacketStray(subs[0]);
      WiresStray(subs[1..]);
      NoFakeHeaderConcat(subs[0].Bytes(), Wires(subs[1..]));
    }
  }

  /** Resynchronisation is sound. Cut into any run of subpackets anywhere, even
      in the middle of an escape, then append any header: a reader that is
      seeking in resync mode skips exactly what is left of the run and returns
      exactly that header. */
  lemma ResyncSound(r: Reader, subs: seq<SubWire>, cut: nat, h: Header)
    requires r.scan.Seeking? && r.resyncing && cut <= |Wires(subs)|
    ensures ReadChunk(r, Wires(subs)[cut..] + HeaderCore(h))
         == Answer(FRESH, |Wires(subs)| - cut + |HeaderCore(h)|, Got(h))
  {
    hide ReadChunk, Wires, HeaderCore;
    WiresStray(subs);
    NoFakeHeaderSuffix(Wires(subs), cut);
    ResyncFindsHeader(r, Wires(subs)[cut..], h);
  }

  // ---------------------------------------------------------------------
  // The running checksum of the reading side
  // ---------------------------------------------------------------------

  datatype CrcState = CrcState(crc16: bv16, crc32: bv32, got: seq<byte>, escapePending: bool) {
    function Updated(b: byte, e: Encoding): CrcState
    {
      if e == ZBIN32 then this.(crc32 := Crc.Update32(crc32, b)) else this.(crc16 := Crc.Update16(crc16, b))
    }

    /** The checksum the register stands for. */
    function Expected(e: Encoding): (s: seq<byte>)
      ensures |s| == CrcLen(e)
    {
      ExpectedOf(crc16, crc32, e)
    }
  }

  function ExpectedOf(crc16: bv16, crc32: bv32, e: Encoding): (s: seq<byte>)
    ensures |s| == CrcLen(e)
  {
    if e == ZBIN32 then Crc.LeBytes32(!crc32) else Crc.BeBytes16(crc16)
  }

  const NO_CRC: CrcState := CrcState(Crc.INIT16, Crc.INIT32, [], false)

  /** The register after exactly these bytes, and no trailer byte yet. */
  function CrcAfter(e: Encoding, data: seq<byte>): CrcState
  {
    if e == ZBIN32 then NO_CRC.(crc32 := Crc.Register32(Crc.INIT32, data))
    else NO_CRC.(crc16 := Crc.Register16(Crc.INIT16, data))
  }

  lemma CrcAfterSnoc(e: Encoding, data: seq<byte>, b: byte)
    ensures CrcAfter(e, data).Updated(b, e) == CrcAfter(e, data + [b])
  {
    hide Crc.Update16, Crc.Update32;
    Crc.RegisterSnoc(Crc.INIT16, Crc.INIT32, data, b);
  }

  /** The incremental register and the batch checksum agree. */
  lemma IncrementalIsBatch(e: Encoding, data: seq<byte>)
    ensures CrcAfter(e, []) == NO_CRC && CrcAfter(e, data).Expected(e) == Checksum(e, data)
  {
  }

  datatype Verdict = More | Good | Bad(error: Error)

  datatype CrcStepped = CrcStepped(crc: CrcState, verdict: Verdict)

  /** One wire byte of the trailer. */
  function CrcStep(c: CrcState, e: Encoding, b: byte): CrcStepped
  {
    var (pending, out) := UnescStep(c.escapePending, b);
    var held := c.(escapePending := pending);
    if out.None? then CrcStepped(held, More) else TrailerByte(held, e, out.value)
  }

  /** One decoded byte of the trailer; the last one decides, and any behind it do not
      change the verdict. */
  function TrailerByte(c: CrcState, e: Encoding, b: byte): CrcStepped
  {
    var c' := c.(got := c.got + [b]);
    if |c'.got| < CrcLen(e) then CrcStepped(c', More)
    else if c'.got[..CrcLen(e)] == c.Expected(e) then CrcStepped(c', Good)
    else CrcStepped(c', Bad(if e == ZBIN32 then UnexpectedCrc32 else UnexpectedCrc16))
  }

  class RxCrc {
    var calc16: bv16
    var calc32: bv32
    const buf: array<byte>
    var bytesRead: nat
    var escapePending: bool

    ghost function Repr(): set<object>
    {
      {this, buf}
    }

    ghost predicate Valid()
      reads this
    {
      buf.Length == 4 && bytesRead <= 4
    }

    ghost function View(): CrcState
      requires Valid()
      reads this, buf
    {
      CrcState(calc16, calc32, buf[..bytesRead], escapePending)
    }

    ghost predicate Holds(c: CrcState): (b: bool)
      reads this, buf
      ensures b ==> Valid()
    {
      Valid() && View() == c
    }

    constructor ()
      ensures Valid() && fresh(buf) && Holds(NO_CRC)
    {
      calc16 := Crc.INIT16;
      calc32 := Crc.INIT32;
      buf := new byte[4](i => 0);
      bytesRead := 0;
      escapePending := false;
    }

    method Reset()
      requires Valid()
      modifies this
      ensures Holds(NO_CRC)
    {
      calc16 := Crc.INIT16;
      calc32 := Crc.INIT32;
      bytesRead := 0;
      escapePending := false;
    }

    method Update(b: byte, e: Encoding)
      requires Valid()
      modifies this
      ensures Valid() && View() == old(View()).Updated(b, e)
    {
      if e == ZBIN32 {
        calc32 := Crc.UpdateByte32(calc32, b);
      } else {
        calc16 := Crc.UpdateByte16(calc16, b);
      }
    }

    /** Takes one decoded trailer byte from the port, if there is one. */
    method Process(port: SliceReader, e: Encoding) returns (v: Verdict)
      requires Valid() && port.Valid() && port as object !in Repr() && bytesRead < buf.Length
      modifies Repr(), port
      ensures Valid() && port.Valid()
      ensures
        var u := UnescRead(old(View()).escapePending, old(port.Rest()));
        var held := old(View()).(escapePending := u.0);
        && port.pos == old(port.pos) + u.1
        && CrcStepped(View(), v) == if u.2.None? then CrcStepped(held, More) else TrailerByte(held, e, u.2.value)
    {
      hide ExpectedOf, TrailerByte;
      var pending, b := ReadByteUnescaped(port, escapePending);
      escapePending := pending;
      if b.None? {
        return More;
      }
      v := Take(b.value, e);
    }

    method Take(b: byte, e: Encoding) returns (v: Verdict)
      requires Valid() && bytesRead < buf.Length
      modifies Repr()
      ensures Valid() && CrcStepped(View(), v) == TrailerByte(old(View()), e, b)
    {
      hide ExpectedOf;
      ghost var held := View();
      buf[bytesRead] := b;
      bytesRead := bytesRead + 1;
      assert View() == held.(got := held.got + [b]);
      if bytesRead < CrcLen(e) {
        return More;
      }
      var good := Matches(e);
      if !good {
        return Bad(if e == ZBIN32 then UnexpectedCrc32 else UnexpectedCrc16);
      }
      return Good;
    }

    method Matches(e: Encoding) returns (good: bool)
      requires Valid() && bytesRead >= CrcLen(e)
      ensures good == (View().got[..CrcLen(e)] == View().Expected(e))
    {
      hide Crc.LeBytes32, Crc.BeBytes16;
      if e == ZBIN32 {
        var expected := Crc.LeBytes32(!calc32);
        good := expected == buf[..];
        assert buf[..] == View().got[..4];
      } else {
        var expected := Crc.BeBytes16(calc16);
        good := expected == [buf[0], buf[1]];
        assert [buf[0], buf[1]] == View().got[..2];
      }
    }
  }

  /** Any change of at most four consecutive payload bytes under a 32-bit
      checksum, or two under a 16-bit one, breaks the seal. */
  lemma BurstBreaksSeal(e: Encoding, kind: SubpacketType, p: seq<byte>, u: seq<byte>, v: seq<byte>, s: seq<byte>)
    requires |u| == |v| && u != v && |u| <= CrcLen(e)
    ensures !SubWire(kind, p + v + s, Sealed(e, kind, p + u + s).sum).Intact(e)
  {
    var k := [KindByte(kind)];
    assert (p + u + s) + k == p + u + (s + k) && (p + v + s) + k == p + v + (s + k);
    if e == ZBIN32 {
      Crc.BurstDetected32(p, u, v, s + k);
      if Checksum(e, (p + u + s) + k) == Checksum(e, (p + v + s) + k) {
        Crc.LeBytes32Injective(Crc.Crc32Of(p + u + (s + k)), Crc.Crc32Of(p + v + (s + k)));
      }
    } else {
      Crc.BurstDetected16(p, u, v, s + k);
      if Checksum(e, (p + u + s) + k) == Checksum(e, (p + v + s) + k) {
        Crc.BeBytes16Injective(Crc.Crc16Of(p + u + (s + k)), Crc.Crc16Of(p + v + (s + k)));
      }
    }
  }
}
