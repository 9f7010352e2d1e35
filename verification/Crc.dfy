/** A byte as eight bits, and back. */
module Octets {
  import opened Primitives

  function Octet(x: bv8): byte
  {
    x as int
  }

  /** The eight bits of a byte, counted up to. */
  function Bits(b: byte): (x: bv8)
    ensures Octet(x) == b
  {
    if b == 0 then 0 else Bits(b - 1) + 1
  }

  lemma BitsRoundTrip(x: bv8)
    ensures (Octet(x) as bv8) == x
  {
  }

  lemma OctetRoundTrip(b: byte)
    ensures ((b as bv8) as byte) == b
  {
    BitsRoundTrip(Bits(b));
  }

  /** Different bits are different bytes. */
  lemma OctetInjective(x: bv8, y: bv8)
    requires Octet(x) == Octet(y)
    ensures x == y
  {
    hide Octet;
    BitsRoundTrip(x);
    BitsRoundTrip(y);
  }

  /** Different bytes have different bits. */
  lemma BitsInjective(a: byte, b: byte)
    requires (a as bv8) == (b as bv8)
    ensures a == b
  {
    OctetRoundTrip(a);
    OctetRoundTrip(b);
  }
}

/** CRC-16/XMODEM and CRC-32/ISO-HDLC, bit by bit, as the crate computes them. */
module Crc {
  import opened Octets
  import opened Primitives

  // ---------------------------------------------------------------------
  // One register shift, one byte, a run of bytes
  // ---------------------------------------------------------------------

  /** Exclusive or, named so that the algebra below can treat it as one symbol. */
  function Mix16(x: bv16, y: bv16): bv16
  {
    x ^ y
  }

  function Mix32(x: bv32, y: bv32): bv32
  {
    x ^ y
  }

  function Shift16(crc: bv16): bv16
  {
    if crc & 0x8000 != 0 then (crc << 1) ^ 0x1021 else crc << 1
  }

  function Shift32(crc: bv32): bv32
  {
    if crc & 1 != 0 then (crc >> 1) ^ 0xEDB8_8320 else crc >> 1
  }

  function Shifts16(crc: bv16, n: nat): bv16
  {
    if n == 0 then crc else Shift16(Shifts16(crc, n - 1))
  }

  function Shifts32(crc: bv32, n: nat): bv32
  {
    if n == 0 then crc else Shift32(Shifts32(crc, n - 1))
  }

  lemma Unroll(c: bv16, d: bv32, n: nat)
    ensures Shifts16(c, 0) == c && Shifts32(d, 0) == d
    ensures Shifts16(c, n + 1) == Shift16(Shifts16(c, n))
    ensures Shifts32(d, n + 1) == Shift32(Shifts32(d, n))
  {
    hide Shift16, Shift32;
  }

  /** The byte in the top half of a CRC-16 register. */
  function Wide16(b: byte): bv16
  {
    ((b as bv8) as bv16) << 8
  }

  /** The byte in the low end of a CRC-32 register. */
  function Wide32(b: byte): bv32
  {
    (b as bv8) as bv32
  }

  function Update16(crc: bv16, b: byte): bv16
  {
    Shifts16(Mix16(crc, Wide16(b)), 8)
  }

  function Update32(crc: bv32, b: byte): bv32
  {
    Shifts32(Mix32(crc, Wide32(b)), 8)
  }

  /** The register after a run of bytes. */
  function Register16(crc: bv16, data: seq<byte>): bv16
  {
    if data == [] then crc else Update16(Register16(crc, data[..|data| - 1]), data[|data| - 1])
  }

  function Register32(crc: bv32, data: seq<byte>): bv32
  {
    if data == [] then crc else Update32(Register32(crc, data[..|data| - 1]), data[|data| - 1])
  }

  const INIT16: bv16 := 0
  const INIT32: bv32 := 0xFFFF_FFFF

  function Crc16Of(data: seq<byte>): bv16
  {
    Register16(INIT16, data)
  }

  function Crc32Of(data: seq<byte>): bv32
  {
    !Register32(INIT32, data)
  }

  // ---------------------------------------------------------------------
  // Bytes of a checksum as they travel
  // ---------------------------------------------------------------------

  /** Most significant byte first. */
  function BeBytes16(crc: bv16): (bytes: seq<byte>)
    ensures |bytes| == 2
  {
    [Octet((crc >> 8) as bv8), Octet((crc & 0xFF) as bv8)]
  }

  /** Least significant byte first. */
  function LeBytes32(crc: bv32): (bytes: seq<byte>)
    ensures |bytes| == 4
  {
    [Octet((crc & 0xFF) as bv8), Octet(((crc >> 8) & 0xFF) as bv8),
     Octet(((crc >> 16) & 0xFF) as bv8), Octet(((crc >> 24) & 0xFF) as bv8)]
  }

  // ---------------------------------------------------------------------
  // The loops of the source
  // ---------------------------------------------------------------------

  method ShiftOnce16(crc: bv16) returns (next: bv16)
    ensures next == Shift16(crc)
  {
    if crc & 0x8000 != 0 {
      next := (crc << 1) ^ 0x1021;
    } else {
      next := crc << 1;
    }
  }

  method ShiftOnce32(crc: bv32) returns (next: bv32)
    ensures next == Shift32(crc)
  {
    if crc & 1 != 0 {
      next := (crc >> 1) ^ 0xEDB8_8320;
    } else {
      next := crc >> 1;
    }
  }

  method UpdateByte16(start: bv16, b: byte) returns (crc: bv16)
    ensures crc == Update16(start, b)
  {
    hide Shifts16, Mix16, Wide16, Shift16;
    ghost var loaded := Mix16(start, Wide16(b));
    crc := Mix16(start, Wide16(b));
    Unroll(loaded, 0, 0);
    var i := 0;
    while i < 8
      invariant 0 <= i <= 8
      invariant crc == Shifts16(loaded, i)
    {
      Unroll(loaded, 0, i);
      crc := ShiftOnce16(crc);
      i := i + 1;
    }
  }

  method UpdateByte32(start: bv32, b: byte) returns (crc: bv32)
    ensures crc == Update32(start, b)
  {
    hide Shifts32, Mix32, Wide32, Shift32;
    ghost var loaded := Mix32(start, Wide32(b));
    crc := Mix32(start, Wide32(b));
    Unroll(0, loaded, 0);
    var i := 0;
    while i < 8
      invariant 0 <= i <= 8
      invariant crc == Shifts32(loaded, i)
    {
      Unroll(0, loaded, i);
      crc := ShiftOnce32(crc);
      i := i + 1;
    }
  }

  method Crc16Xmodem(data: seq<byte>) returns (crc: bv16)
    ensures crc == Crc16Of(data)
  {
    crc := 0x0000;
    var i := 0;
    while i < |data|
      invariant 0 <= i <= |data|
      invariant crc == Register16(INIT16, data[..i])
    {
      crc := UpdateByte16(crc, data[i]);
      assert data[..i + 1][..i] == data[..i];
      i := i + 1;
    }
    assert data[..i] == data;
  }

  method Crc32IsoHdlc(data: seq<byte>) returns (crc: bv32)
    ensures crc == Crc32Of(data)
  {
    crc := 0xFFFF_FFFF;
    var i := 0;
    while i < |data|
      invariant 0 <= i <= |data|
      invariant crc == Register32(INIT32, data[..i])
    {
      crc := UpdateByte32(crc, data[i]);
      assert data[..i + 1][..i] == data[..i];
      i := i + 1;
    }
    assert data[..i] == data;
    crc := !crc;
  }

  /** The stateful CRC-16 calculator. */
  class Crc16 {
    var crc: bv16

    constructor ()
      ensures crc == INIT16
    {
      crc := INIT16;
    }

    method UpdateByte(b: byte)
      modifies this
      ensures crc == Update16(old(crc), b)
    {
      crc := UpdateByte16(crc, b);
    }

    method Update(data: seq<byte>)
      modifies this
      ensures crc == Register16(old(crc), data)
    {
      var i := 0;
      while i < |data|
        invariant 0 <= i <= |data|
        invariant crc == Register16(old(crc), data[..i])
      {
        UpdateByte(data[i]);
        assert data[..i + 1][..i] == data[..i];
        i := i + 1;
      }
      assert data[..i] == data;
    }

    method Finalize() returns (sum: bv16)
      ensures sum == crc
    {
      sum := crc;
    }
  }

  /** The stateful CRC-32 calculator. */
  class Crc32 {
    var crc: bv32

    constructor ()
      ensures crc == INIT32
    {
      crc := INIT32;
    }

    method UpdateByte(b: byte)
      modifies this
      ensures crc == Update32(old(crc), b)
    {
      crc := UpdateByte32(crc, b);
    }

    method Update(data: seq<byte>)
      modifies this
      ensures crc == Register32(old(crc), data)
    {
      var i := 0;
      while i < |data|
        invariant 0 <= i <= |data|
        invariant crc == Register32(old(crc), data[..i])
      {
        UpdateByte(data[i]);
        assert data[..i + 1][..i] == data[..i];
        i := i + 1;
      }
      assert data[..i] == data;
    }

    method Finalize() returns (sum: bv32)
      ensures sum == !crc
    {
      sum := !crc;
    }
  }

  // ---------------------------------------------------------------------
  // Running over a concatenation
  // ---------------------------------------------------------------------

  lemma {:induction false} Register16Concat(crc: bv16, a: seq<byte>, b: seq<byte>)
    ensures Register16(crc, a + b) == Register16(Register16(crc, a), b)
    decreases |b|
  {
    hide Update16;
    if b == [] {
      assert a + b == a;
    } else {
      var head := b[..|b| - 1];
      assert (a + b)[..|a + b| - 1] == a + head;
      Register16Concat(crc, a, head);
    }
  }

  lemma {:induction false} Register32Concat(crc: bv32, a: seq<byte>, b: seq<byte>)
    ensures Register32(crc, a + b) == Register32(Register32(crc, a), b)
    decreases |b|
  {
    hide Update32;
    if b == [] {
      assert a + b == a;
    } else {
      var head := b[..|b| - 1];
      assert (a + b)[..|a + b| - 1] == a + head;
      Register32Concat(crc, a, head);
    }
  }

  lemma RegisterOne(c: bv16, d: bv32, b: byte)
    ensures Register16(c, [b]) == Update16(c, b) && Register32(d, [b]) == Update32(d, b)
  {
    hide Update16, Update32;
    assert [b][..0] == [];
  }

  lemma RegisterSnoc(c: bv16, d: bv32, s: seq<byte>, b: byte)
    ensures Register16(c, s + [b]) == Update16(Register16(c, s), b)
    ensures Register32(d, s + [b]) == Update32(Register32(d, s), b)
  {
    hide Update16, Update32;
    assert (s + [b])[..|s|] == s;
  }

  // ---------------------------------------------------------------------
  // The shift is linear over exclusive or, and loses nothing
  // ---------------------------------------------------------------------

  lemma MixAssoc16(x: bv16, y: bv16, z: bv16)
    ensures Mix16(Mix16(x, y), z) == Mix16(x, Mix16(y, z))
  {
  }

  lemma MixSelf16(x: bv16)
    ensures Mix16(x, x) == 0 && Mix16(x, 0) == x
  {
  }

  lemma MixZero16(x: bv16, y: bv16)
    ensures Mix16(x, y) == 0 <==> x == y
  {
    hide Mix16;
    MixSelf16(y);
    MixCancel16(x, y);
    MixCancel16(y, y);
  }

  lemma MixCancel16(x: bv16, z: bv16)
    ensures Mix16(Mix16(x, z), z) == x
  {
  }

  lemma MixCancelLeft16(z: bv16, x: bv16)
    ensures Mix16(z, Mix16(z, x)) == x
  {
  }

  lemma MixAssoc32(x: bv32, y: bv32, z: bv32)
    ensures Mix32(Mix32(x, y), z) == Mix32(x, Mix32(y, z))
  {
  }

  lemma MixSelf32(x: bv32)
    ensures Mix32(x, x) == 0 && Mix32(x, 0) == x
  {
  }

  lemma MixZero32(x: bv32, y: bv32)
    ensures Mix32(x, y) == 0 <==> x == y
  {
    hide Mix32;
    MixSelf32(y);
    MixCancel32(x, y);
    MixCancel32(y, y);
  }

  lemma MixCancel32(x: bv32, z: bv32)
    ensures Mix32(Mix32(x, z), z) == x
  {
  }

  lemma MixCancelLeft32(z: bv32, x: bv32)
    ensures Mix32(z, Mix32(z, x)) == x
  {
  }

  lemma Bits16(x: bv16, y: bv16)
    ensures (x ^ y) << 1 == (x << 1) ^ (y << 1)
    ensures (x ^ y) & 0x8000 == (x & 0x8000) ^ (y & 0x8000)
    ensures x & 0x8000 == 0 || x & 0x8000 == 0x8000
    ensures y & 0x8000 == 0 || y & 0x8000 == 0x8000
  {
  }

  lemma Bits32(x: bv32, y: bv32)
    ensures (x ^ y) >> 1 == (x >> 1) ^ (y >> 1)
    ensures (x ^ y) & 1 == (x & 1) ^ (y & 1)
    ensures x & 1 == 0 || x & 1 == 1
    ensures y & 1 == 0 || y & 1 == 1
  {
  }

  lemma Cancel16(x: bv16, y: bv16, p: bv16)
    ensures (x ^ p) ^ (y ^ p) == x ^ y
    ensures (x ^ p) ^ y == (x ^ y) ^ p
    ensures x ^ (y ^ p) == (x ^ y) ^ p
  {
  }

  lemma Cancel32(x: bv32, y: bv32, p: bv32)
    ensures (x ^ p) ^ (y ^ p) == x ^ y
    ensures (x ^ p) ^ y == (x ^ y) ^ p
    ensures x ^ (y ^ p) == (x ^ y) ^ p
  {
  }

  lemma Shift16Linear(x: bv16, y: bv16)
    ensures Shift16(Mix16(x, y)) == Mix16(Shift16(x), Shift16(y))
  {
    Bits16(x, y);
    Cancel16(x << 1, y << 1, 0x1021);
  }

  lemma Shift32Linear(x: bv32, y: bv32)
    ensures Shift32(Mix32(x, y)) == Mix32(Shift32(x), Shift32(y))
  {
    Bits32(x, y);
    Cancel32(x >> 1, y >> 1, 0xEDB8_8320);
  }

  /** The generator has its outgoing bit set, so no register value is lost. */
  lemma Shift16Kernel(x: bv16)
    ensures Shift16(x) == 0 <==> x == 0
  {
  }

  lemma Shift32Kernel(x: bv32)
    ensures Shift32(x) == 0 <==> x == 0
  {
  }

  lemma {:induction false} Shifts16Linear(x: bv16, y: bv16, n: nat)
    ensures Shifts16(Mix16(x, y), n) == Mix16(Shifts16(x, n), Shifts16(y, n))
  {
    hide Shift16, Mix16;
    if n > 0 {
      Shifts16Linear(x, y, n - 1);
      Shift16Linear(Shifts16(x, n - 1), Shifts16(y, n - 1));
    }
  }

  lemma {:induction false} Shifts32Linear(x: bv32, y: bv32, n: nat)
    ensures Shifts32(Mix32(x, y), n) == Mix32(Shifts32(x, n), Shifts32(y, n))
  {
    hide Shift32, Mix32;
    if n > 0 {
      Shifts32Linear(x, y, n - 1);
      Shift32Linear(Shifts32(x, n - 1), Shifts32(y, n - 1));
    }
  }

  lemma {:induction false} Shifts16Kernel(x: bv16, n: nat)
    ensures Shifts16(x, n) == 0 <==> x == 0
  {
    hide Shift16, Mix16;
    if n > 0 {
      Shift16Kernel(Shifts16(x, n - 1));
      Shifts16Kernel(x, n - 1);
    }
  }

  lemma {:induction false} Shifts32Kernel(x: bv32, n: nat)
    ensures Shifts32(x, n) == 0 <==> x == 0
  {
    hide Shift32, Mix32;
    if n > 0 {
      Shift32Kernel(Shifts32(x, n - 1));
      Shifts32Kernel(x, n - 1);
    }
  }

  lemma Shifts16Injective(x: bv16, y: bv16, n: nat)
    requires Shifts16(x, n) == Shifts16(y, n)
    ensures x == y
  {
    hide Shifts16, Mix16;
    Shifts16Linear(x, y, n);
    MixSelf16(Shifts16(x, n));
    Shifts16Kernel(Mix16(x, y), n);
    MixZero16(x, y);
  }

  lemma Shifts32Injective(x: bv32, y: bv32, n: nat)
    requires Shifts32(x, n) == Shifts32(y, n)
    ensures x == y
  {
    hide Shifts32, Mix32;
    Shifts32Linear(x, y, n);
    MixSelf32(Shifts32(x, n));
    Shifts32Kernel(Mix32(x, y), n);
    MixZero32(x, y);
  }

  lemma {:induction false} Shifts16Add(x: bv16, m: nat, n: nat)
    ensures Shifts16(x, m + n) == Shifts16(Shifts16(x, m), n)
  {
    hide Shift16;
    if n > 0 {
      Shifts16Add(x, m, n - 1);
    }
  }

  lemma {:induction false} Shifts32Add(x: bv32, m: nat, n: nat)
    ensures Shifts32(x, m + n) == Shifts32(Shifts32(x, m), n)
  {
    hide Shift32;
    if n > 0 {
      Shifts32Add(x, m, n - 1);
    }
  }

  lemma UpdateInjective16(x: bv16, y: bv16, b: byte)
    requires Update16(x, b) == Update16(y, b)
    ensures x == y
  {
    hide Shifts16, Mix16, Wide16;
    Shifts16Injective(Mix16(x, Wide16(b)), Mix16(y, Wide16(b)), 8);
    MixCancel16(x, Wide16(b));
    MixCancel16(y, Wide16(b));
  }

  lemma UpdateInjective32(x: bv32, y: bv32, b: byte)
    requires Update32(x, b) == Update32(y, b)
    ensures x == y
  {
    hide Shifts32, Mix32, Wide32;
    Shifts32Injective(Mix32(x, Wide32(b)), Mix32(y, Wide32(b)), 8);
    MixCancel32(x, Wide32(b));
    MixCancel32(y, Wide32(b));
  }

  /** Distinct registers stay distinct through a common suffix. */
  lemma {:induction false} SuffixInjective16(x: bv16, y: bv16, s: seq<byte>)
    requires Register16(x, s) == Register16(y, s)
    ensures x == y
    decreases |s|
  {
    hide Update16;
    if s != [] {
      var head := s[..|s| - 1];
      UpdateInjective16(Register16(x, head), Register16(y, head), s[|s| - 1]);
      SuffixInjective16(x, y, head);
    }
  }

  lemma {:induction false} SuffixInjective32(x: bv32, y: bv32, s: seq<byte>)
    requires Register32(x, s) == Register32(y, s)
    ensures x == y
    decreases |s|
  {
    hide Update32;
    if s != [] {
      var head := s[..|s| - 1];
      UpdateInjective32(Register32(x, head), Register32(y, head), s[|s| - 1]);
      SuffixInjective32(x, y, head);
    }
  }

  // ---------------------------------------------------------------------
  // A run no longer than the register acts like one word
  // ---------------------------------------------------------------------

  function Up32(w: bv32): bv32
  {
    w << 8
  }

  function Down16(w: bv16): bv16
  {
    w >> 8
  }

  /** Up to four bytes as the word the CRC-32 register absorbs. */
  function Pack32(u: seq<byte>): (w: bv32)
    requires |u| <= 4
  {
    if u == [] then 0 else Mix32(Wide32(u[0]), Up32(Pack32(u[1..])))
  }

  function Limit(n: nat): bv32
    requires n <= 3
  {
    if n == 0 then 1 else if n == 1 then 0x100 else if n == 2 then 0x1_0000 else 0x100_0000
  }

  lemma PackBound(b: byte, w: bv32, n: nat)
    requires n <= 2 && w < Limit(n)
    ensures Mix32(Wide32(b), Up32(w)) < Limit(n + 1)
  {
    var v := Wide32(b);
    assert v < 0x100;
    if n == 0 {
      assert w == 0;
      assert v ^ (w << 8) < 0x100;
    } else if n == 1 {
      assert v ^ (w << 8) < 0x1_0000;
    } else {
      assert v ^ (w << 8) < 0x100_0000;
    }
  }

  lemma {:induction false} Pack32Small(u: seq<byte>)
    requires |u| <= 3
    ensures Pack32(u) < Limit(|u|)
  {
    hide Wide32, Mix32, Up32;
    if u != [] {
      Pack32Small(u[1..]);
      PackBound(u[0], Pack32(u[1..]), |u| - 1);
    }
  }

  lemma Halve32(x: bv32, y: bv32)
    requires x & 1 == 0 && x >> 1 == y
    ensures Shift32(x) == y
  {
  }

  lemma Nibble32(x: bv32) returns (x1: bv32, x2: bv32, x3: bv32, x4: bv32)
    requires x & 0xF == 0
    ensures x & 1 == 0 && x1 & 1 == 0 && x2 & 1 == 0 && x3 & 1 == 0
    ensures x1 == x >> 1 && x2 == x1 >> 1 && x3 == x2 >> 1 && x4 == x3 >> 1 && x4 == x >> 4
  {
    x1 := x >> 1;
    x2 := x1 >> 1;
    x3 := x2 >> 1;
    x4 := x3 >> 1;
  }

  lemma Chain32(x0: bv32, x1: bv32, x2: bv32, x3: bv32, x4: bv32)
    requires Shift32(x0) == x1 && Shift32(x1) == x2 && Shift32(x2) == x3 && Shift32(x3) == x4
    ensures Shifts32(x0, 4) == x4
  {
    hide Shift32, Shifts32;
    Unroll(0, x0, 0);
    Unroll(0, x0, 1);
    Unroll(0, x0, 2);
    Unroll(0, x0, 3);
  }

  lemma FourShifts32(x: bv32)
    requires x & 0xF == 0
    ensures Shifts32(x, 4) == x >> 4
  {
    hide Shift32, Shifts32;
    var x1, x2, x3, x4 := Nibble32(x);
    Halve32(x, x1);
    Halve32(x1, x2);
    Halve32(x2, x3);
    Halve32(x3, x4);
    Chain32(x, x1, x2, x3, x4);
  }

  lemma TwoFours32(x: bv32, y: bv32, z: bv32)
    requires Shifts32(x, 4) == y && Shifts32(y, 4) == z
    ensures Shifts32(x, 8) == z
  {
    hide Shifts32;
    Shifts32Add(x, 4, 4);
  }

  lemma ByteGap32(w: bv32) returns (x: bv32, y: bv32)
    requires w < 0x100_0000
    ensures x == Up32(w) && x & 0xF == 0 && y == x >> 4 && y & 0xF == 0 && y >> 4 == w
  {
    x := Up32(w);
    y := x >> 4;
  }

  /** Eight shifts bring a byte-aligned word down without touching the generator. */
  lemma ShiftDown32(w: bv32)
    requires w < 0x100_0000
    ensures Shifts32(Up32(w), 8) == w
  {
    hide Shifts32, Up32;
    var x, y := ByteGap32(w);
    FourShifts32(x);
    FourShifts32(y);
    TwoFours32(x, y, w);
  }

  lemma {:induction false} RunAsWord32(crc: bv32, u: seq<byte>)
    requires |u| <= 4
    ensures Register32(crc, u) == Shifts32(Mix32(crc, Pack32(u)), 8 * |u|)
    decreases |u|
  {
    hide Mix32, Wide32, Up32, Shifts32;
    MixSelf32(crc);
    if u == [] {
      assert Register32(crc, u) == crc;
      Unroll(0, crc, 0);
    } else {
      var b, w, n := Wide32(u[0]), Pack32(u[1..]), 8 * (|u| - 1);
      assert u == [u[0]] + u[1..];
      Register32Concat(crc, [u[0]], u[1..]);
      RegisterOne(0, crc, u[0]);
      RunAsWord32(Update32(crc, u[0]), u[1..]);
      PackLimit(u[1..]);
      ShiftDown32(w);
      Shifts32Linear(Mix32(crc, b), Up32(w), 8);
      Shifts32Add(Mix32(Mix32(crc, b), Up32(w)), 8, n);
      MixAssoc32(crc, b, Up32(w));
    }
  }

  lemma PackLimit(u: seq<byte>)
    requires |u| <= 3
    ensures Pack32(u) < 0x100_0000
  {
    hide Pack32;
    Pack32Small(u);
  }

  lemma Split32(b: byte, w: bv32, c: byte, v: bv32)
    requires w < 0x100_0000 && v < 0x100_0000
    requires Mix32(Wide32(b), Up32(w)) == Mix32(Wide32(c), Up32(v))
    ensures b == c && w == v
  {
    var x, y := b as bv8, c as bv8;
    LowByte32(x, w);
    LowByte32(y, v);
    OctetRoundTrip(b);
    OctetRoundTrip(c);
  }

  lemma LowByte32(x: bv8, w: bv32)
    requires w < 0x100_0000
    ensures ((((x as bv32) ^ (w << 8)) & 0xFF) as bv8) == x
    ensures ((x as bv32) ^ (w << 8)) >> 8 == w
  {
  }

  lemma {:induction false} Pack32Injective(u: seq<byte>, v: seq<byte>)
    requires |u| == |v| <= 4 && Pack32(u) == Pack32(v)
    ensures u == v
    decreases |u|
  {
    hide Mix32, Wide32, Up32;
    if u != [] {
      PackLimit(u[1..]);
      PackLimit(v[1..]);
      Split32(u[0], Pack32(u[1..]), v[0], Pack32(v[1..]));
      Pack32Injective(u[1..], v[1..]);
      assert u == [u[0]] + u[1..] && v == [v[0]] + v[1..];
    }
  }

  /** Up to two bytes as the word the CRC-16 register absorbs. */
  function Pack16(u: seq<byte>): bv16
    requires |u| <= 2
  {
    if u == [] then 0
    else if |u| == 1 then Wide16(u[0])
    else Mix16(Wide16(u[0]), Down16(Wide16(u[1])))
  }

  lemma FreeShift16(w: bv16)
    requires w & 0x8000 == 0
    ensures Shift16(w) == w << 1
  {
  }

  lemma Doubles16(w: bv16)
    requires w < 0x100
    ensures w & 0x8000 == 0 && (w << 1) & 0x8000 == 0 && (w << 1) << 1 == w << 2
    ensures (w << 2) & 0x8000 == 0 && (w << 2) << 1 == w << 3
    ensures (w << 3) & 0x8000 == 0 && (w << 3) << 1 == w << 4
    ensures (w << 4) & 0x8000 == 0 && (w << 4) << 1 == w << 5
    ensures (w << 5) & 0x8000 == 0 && (w << 5) << 1 == w << 6
    ensures (w << 6) & 0x8000 == 0 && (w << 6) << 1 == w << 7
    ensures (w << 7) & 0x8000 == 0 && (w << 7) << 1 == w << 8
  {
  }

  lemma ShiftUpBits16(w: bv16)
    requires w < 0x100
    ensures Shifts16(w, 8) == w << 8
  {
    hide Shift16, Shifts16;
    Unroll(w, 0, 0);
    Unroll(w, 0, 1);
    Unroll(w, 0, 2);
    Unroll(w, 0, 3);
    Unroll(w, 0, 4);
    Unroll(w, 0, 5);
    Unroll(w, 0, 6);
    Unroll(w, 0, 7);
    Doubles16(w);
    FreeShift16(w);
    FreeShift16(w << 1);
    FreeShift16(w << 2);
    FreeShift16(w << 3);
    FreeShift16(w << 4);
    FreeShift16(w << 5);
    FreeShift16(w << 6);
    FreeShift16(w << 7);
  }

  lemma LowHalf16(x: bv8)
    ensures (x as bv16) < 0x100 && ((x as bv16) << 8) >> 8 == x as bv16
  {
  }

  lemma ShiftUp16(b: byte)
    ensures Shifts16(Down16(Wide16(b)), 8) == Wide16(b)
  {
    hide Shifts16;
    LowHalf16(b as bv8);
    ShiftUpBits16((b as bv8) as bv16);
  }

  lemma RunAsWord16(crc: bv16, u: seq<byte>)
    requires |u| <= 2
    ensures Register16(crc, u) == Shifts16(Mix16(crc, Pack16(u)), 8 * |u|)
  {
    hide Mix16, Wide16, Down16, Shifts16;
    MixSelf16(crc);
    if u == [] {
      Unroll(crc, 0, 0);
    } else {
      var b := Wide16(u[0]);
      RegisterOne(crc, 0, u[0]);
      if |u| == 1 {
        assert u == [u[0]];
      } else {
        var w := Down16(Wide16(u[1]));
        assert u == [u[0]] + [u[1]];
        RegisterSnoc(crc, 0, [u[0]], u[1]);
        ShiftUp16(u[1]);
        Shifts16Linear(Mix16(crc, b), w, 8);
        Shifts16Add(Mix16(Mix16(crc, b), w), 8, 8);
        MixAssoc16(crc, b, w);
      }
    }
  }

  lemma Halves16(x: bv8, y: bv8)
    ensures (((((x as bv16) << 8) ^ (((y as bv16) << 8) >> 8)) >> 8) as bv8) == x
    ensures (((((x as bv16) << 8) ^ (((y as bv16) << 8) >> 8)) & 0xFF) as bv8) == y
    ensures (((x as bv16) << 8) >> 8) as bv8 == x
  {
  }

  lemma OneOctet(a: byte, c: byte)
    requires Wide16(a) == Wide16(c)
    ensures a == c
  {
    hide Mix16, Down16;
    Halves16(a as bv8, 0);
    Halves16(c as bv8, 0);
    BitsInjective(a, c);
  }

  lemma TwoBytes(x: bv8, y: bv8, z: bv8, w: bv8)
    requires ((x as bv16) << 8) ^ (((y as bv16) << 8) >> 8) == ((z as bv16) << 8) ^ (((w as bv16) << 8) >> 8)
    ensures x == z && y == w
  {
    Halves16(x, y);
    Halves16(z, w);
  }

  lemma TwoOctets(a: byte, b: byte, c: byte, d: byte)
    requires Mix16(Wide16(a), Down16(Wide16(b))) == Mix16(Wide16(c), Down16(Wide16(d)))
    ensures a == c && b == d
  {
    TwoBytes(a as bv8, b as bv8, c as bv8, d as bv8);
    BitsInjective(a, c);
    BitsInjective(b, d);
  }

  lemma Pack16Injective(u: seq<byte>, v: seq<byte>)
    requires |u| == |v| <= 2 && Pack16(u) == Pack16(v)
    ensures u == v
  {
    hide Mix16, Down16, Wide16;
    if |u| == 1 {
      OneOctet(u[0], v[0]);
    } else if |u| == 2 {
      TwoOctets(u[0], u[1], v[0], v[1]);
    }
  }

  // ---------------------------------------------------------------------
  // Main results: what a checksum cannot miss
  // ---------------------------------------------------------------------

  lemma RunInjective32(c: bv32, u: seq<byte>, v: seq<byte>)
    requires |u| == |v| <= 4 && Register32(c, u) == Register32(c, v)
    ensures u == v
  {
    hide Mix32, Shifts32, Pack32, Register32;
    RunAsWord32(c, u);
    RunAsWord32(c, v);
    Shifts32Injective(Mix32(c, Pack32(u)), Mix32(c, Pack32(v)), 8 * |u|);
    MixCancelLeft32(c, Pack32(u));
    MixCancelLeft32(c, Pack32(v));
    Pack32Injective(u, v);
  }

  lemma RunInjective16(c: bv16, u: seq<byte>, v: seq<byte>)
    requires |u| == |v| <= 2 && Register16(c, u) == Register16(c, v)
    ensures u == v
  {
    hide Mix16, Shifts16, Pack16, Register16;
    RunAsWord16(c, u);
    RunAsWord16(c, v);
    Shifts16Injective(Mix16(c, Pack16(u)), Mix16(c, Pack16(v)), 8 * |u|);
    MixCancelLeft16(c, Pack16(u));
    MixCancelLeft16(c, Pack16(v));
    Pack16Injective(u, v);
  }

  lemma SameRegister32(a: seq<byte>, b: seq<byte>)
    requires Crc32Of(a) == Crc32Of(b)
    ensures Register32(INIT32, a) == Register32(INIT32, b)
  {
    hide Register32;
    var x, y := Register32(INIT32, a), Register32(INIT32, b);
    assert !(!x) == x && !(!y) == y;
  }

  /** Any change confined to four consecutive bytes changes the CRC-32. */
  lemma BurstDetected32(p: seq<byte>, u: seq<byte>, v: seq<byte>, s: seq<byte>)
    requires |u| == |v| <= 4 && u != v
    ensures Crc32Of(p + u + s) != Crc32Of(p + v + s)
  {
    hide Register32, Crc32Of;
    if Crc32Of(p + u + s) == Crc32Of(p + v + s) {
      SameRegister32(p + u + s, p + v + s);
      Register32Concat(INIT32, p + u, s);
      Register32Concat(INIT32, p + v, s);
      SuffixInjective32(Register32(INIT32, p + u), Register32(INIT32, p + v), s);
      Register32Concat(INIT32, p, u);
      Register32Concat(INIT32, p, v);
      RunInjective32(Register32(INIT32, p), u, v);
    }
  }

  /** Any change confined to two consecutive bytes changes the CRC-16. */
  lemma BurstDetected16(p: seq<byte>, u: seq<byte>, v: seq<byte>, s: seq<byte>)
    requires |u| == |v| <= 2 && u != v
    ensures Crc16Of(p + u + s) != Crc16Of(p + v + s)
  {
    hide Register16;
    if Crc16Of(p + u + s) == Crc16Of(p + v + s) {
      Register16Concat(INIT16, p + u, s);
      Register16Concat(INIT16, p + v, s);
      SuffixInjective16(Register16(INIT16, p + u), Register16(INIT16, p + v), s);
      Register16Concat(INIT16, p, u);
      Register16Concat(INIT16, p, v);
      RunInjective16(Register16(INIT16, p), u, v);
    }
  }

  lemma Octets16(c: bv16)
    ensures ((((c >> 8) as bv8) as bv16) << 8) ^ (((((c & 0xFF) as bv8) as bv16) << 8) >> 8) == c
  {
  }

  lemma Rejoin16(c: bv16)
    ensures Pack16(BeBytes16(c)) == c
  {
    var hi, lo := (c >> 8) as bv8, (c & 0xFF) as bv8;
    BitsRoundTrip(hi);
    BitsRoundTrip(lo);
    Octets16(c);
  }

  /** Data followed by its own big-endian CRC-16 leaves an empty register. */
  lemma Residue16(data: seq<byte>)
    ensures Crc16Of(data + BeBytes16(Crc16Of(data))) == 0
  {
    hide Mix16, Shifts16, Pack16, Register16, BeBytes16;
    var c := Crc16Of(data);
    var t := BeBytes16(c);
    Register16Concat(INIT16, data, t);
    RunAsWord16(c, t);
    Rejoin16(c);
    MixSelf16(c);
    Shifts16Kernel(0, 16);
  }

  /** A register is recovered from its octets. */
  lemma SameOctets32(c: bv32, d: bv32)
    requires (c & 0xFF) as bv8 == (d & 0xFF) as bv8 && ((c >> 8) & 0xFF) as bv8 == ((d >> 8) & 0xFF) as bv8
    requires ((c >> 16) & 0xFF) as bv8 == ((d >> 16) & 0xFF) as bv8
    requires ((c >> 24) & 0xFF) as bv8 == ((d >> 24) & 0xFF) as bv8
    ensures c == d
  {
  }

  lemma SameOctets16(c: bv16, d: bv16)
    requires (c >> 8) as bv8 == (d >> 8) as bv8 && (c & 0xFF) as bv8 == (d & 0xFF) as bv8
    ensures c == d
  {
  }

  lemma LeBytes32Injective(c: bv32, d: bv32)
    requires LeBytes32(c) == LeBytes32(d)
    ensures c == d
  {
    hide Octet;
    var s, t := LeBytes32(c), LeBytes32(d);
    assert s[0] == t[0] && s[1] == t[1] && s[2] == t[2] && s[3] == t[3];
    OctetInjective((c & 0xFF) as bv8, (d & 0xFF) as bv8);
    OctetInjective(((c >> 8) & 0xFF) as bv8, ((d >> 8) & 0xFF) as bv8);
    OctetInjective(((c >> 16) & 0xFF) as bv8, ((d >> 16) & 0xFF) as bv8);
    OctetInjective(((c >> 24) & 0xFF) as bv8, ((d >> 24) & 0xFF) as bv8);
    SameOctets32(c, d);
  }

  lemma BeBytes16Injective(c: bv16, d: bv16)
    requires BeBytes16(c) == BeBytes16(d)
    ensures c == d
  {
    hide Octet;
    var s, t := BeBytes16(c), BeBytes16(d);
    assert s[0] == t[0] && s[1] == t[1];
    OctetInjective((c >> 8) as bv8, (d >> 8) as bv8);
    OctetInjective((c & 0xFF) as bv8, (d & 0xFF) as bv8);
    SameOctets16(c, d);
  }
}
