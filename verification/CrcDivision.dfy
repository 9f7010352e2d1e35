/** What the two checksums are: remainders of polynomial division with coefficients
    modulo two, by the generators of CRC-16/XMODEM and CRC-32/ISO-HDLC. */
module CrcDivision {
  import opened Primitives
  import opened Octets
  import opened Crc

  /** A polynomial, its highest coefficient first. */
  type Poly = seq<bool>

  function Zeros(n: nat): (p: Poly)
    ensures |p| == n
  {
    seq(n, i => false)
  }

  function Ones(n: nat): (p: Poly)
    ensures |p| == n
  {
    seq(n, i => true)
  }

  /** The polynomial with exactly these exponents. */
  function Sum(degree: nat, exponents: set<nat>): (p: Poly)
    ensures |p| == degree + 1
  {
    seq(degree + 1, i requires 0 <= i <= degree => degree - i in exponents)
  }

  const G16: Poly := Sum(16, {16, 12, 5, 0})
  const G32: Poly := Sum(32, {32, 26, 23, 22, 16, 12, 11, 10, 8, 7, 5, 4, 2, 1, 0})

  function Plus(a: Poly, b: Poly): (c: Poly)
    requires |a| == |b|
    ensures |c| == |a|
  {
    seq(|a|, i requires 0 <= i < |a| => a[i] != b[i])
  }

  /** One row of a long multiplication. */
  function Row(c: bool, g: Poly): (p: Poly)
    ensures |p| == |g|
  {
    if c then g else Zeros(|g|)
  }

  function Times(q: Poly, g: Poly): (p: Poly)
    requires g != []
    ensures |p| == |q| + |g| - 1
  {
    if q == [] then Zeros(|g| - 1)
    else Plus(Row(q[0], g) + Zeros(|q| - 1), [false] + Times(q[1..], g))
  }

  // ---------------------------------------------------------------------
  // Bits of texts and registers
  // ---------------------------------------------------------------------

  function HighBits(x: bv8): (p: Poly)
    ensures |p| == 8
  {
    [x & 0x80 != 0, x & 0x40 != 0, x & 0x20 != 0, x & 0x10 != 0,
     x & 0x08 != 0, x & 0x04 != 0, x & 0x02 != 0, x & 0x01 != 0]
  }

  function LowBits(x: bv8): (p: Poly)
    ensures |p| == 8
  {
    [x & 0x01 != 0, x & 0x02 != 0, x & 0x04 != 0, x & 0x08 != 0,
     x & 0x10 != 0, x & 0x20 != 0, x & 0x40 != 0, x & 0x80 != 0]
  }

  /** A text as a polynomial, the high bit of every byte first. */
  function HighFirst(data: seq<byte>): (p: Poly)
    ensures |p| == 8 * |data|
  {
    if data == [] then [] else HighFirst(data[..|data| - 1]) + HighBits(data[|data| - 1] as bv8)
  }

  /** A text as a polynomial, the low bit of every byte first. */
  function LowFirst(data: seq<byte>): (p: Poly)
    ensures |p| == 8 * |data|
  {
    if data == [] then [] else LowFirst(data[..|data| - 1]) + LowBits(data[|data| - 1] as bv8)
  }

  /** The bit a register gives up next, and the register without it. */
  predicate Head16(r: bv16)
  {
    r & 0x8000 != 0
  }

  predicate Head32(r: bv32)
  {
    r & 1 != 0
  }

  function Tail16(r: bv16): bv16
  {
    r << 1
  }

  function Tail32(r: bv32): bv32
  {
    r >> 1
  }

  /** The `n` highest bits of a CRC-16 register, the highest first. */
  function Coeffs16(r: bv16, n: nat): (p: Poly)
    ensures |p| == n
    decreases n
  {
    if n == 0 then [] else [Head16(r)] + Coeffs16(Tail16(r), n - 1)
  }

  /** The `n` lowest bits of a CRC-32 register, the lowest first. */
  function Coeffs32(r: bv32, n: nat): (p: Poly)
    ensures |p| == n
    decreases n
  {
    if n == 0 then [] else [Head32(r)] + Coeffs32(Tail32(r), n - 1)
  }

  // ---------------------------------------------------------------------
  // Long division, one coefficient at a time
  // ---------------------------------------------------------------------

  /** The next partial remainder: the next coefficient of the dividend is brought in at
      the top, and the divisor is taken off if the leading one is set. */
  function Bring(r: Poly, m: bool, g: Poly): (s: Poly)
    requires r != [] && |g| == |r| + 1
    ensures |s| == |r|
  {
    Plus(r[1..] + [false], Row(r[0] != m, g[1..]))
  }

  function Divide(r: Poly, bits: Poly, g: Poly): (s: Poly)
    requires r != [] && |g| == |r| + 1
    ensures |s| == |r|
    decreases |bits|
  {
    if bits == [] then r else Divide(Bring(r, bits[0], g), bits[1..], g)
  }

  /** What is divided: the bits moved up by the degree of the divisor, with the register
      the division started from added to their front. */
  function Dividend(r: Poly, bits: Poly): (p: Poly)
    ensures |p| == |r| + |bits|
  {
    Plus(r + Zeros(|bits|), bits + Zeros(|r|))
  }

  lemma Brought(r: Poly, bits: Poly, g: Poly)
    requires r != [] && |g| == |r| + 1 && g[0] && bits != []
    ensures
      var c := r[0] != bits[0];
      Dividend(r, bits) ==
      Plus(Row(c, g) + Zeros(|bits| - 1), [false] + Dividend(Bring(r, bits[0], g), bits[1..]))
  {
    var c, s := r[0] != bits[0], Bring(r, bits[0], g);
    var a, b := Row(c, g) + Zeros(|bits| - 1), [false] + Dividend(s, bits[1..]);
    assert |a| == |r| + |bits| && |b| == |r| + |bits|;
    forall i | 0 <= i < |r| + |bits|
      ensures Dividend(r, bits)[i] == (a[i] != b[i])
    {
      if 0 < i <= |r| {
        assert s[i - 1] == ((if i < |r| then r[i] else false) != (c && g[i]));
        assert b[i] == (s[i - 1] != (if i < |bits| then bits[i] else false));
      } else if i > |r| {
        assert b[i] == (if i < |bits| then bits[i] else false);
      }
    }
  }

  lemma PlusAssoc(a: Poly, b: Poly, c: Poly)
    requires |a| == |b| == |c|
    ensures Plus(a, Plus(b, c)) == Plus(Plus(a, b), c)
  {
  }

  lemma PlusShifted(a: Poly, b: Poly)
    requires |a| == |b|
    ensures [false] + Plus(a, b) == Plus([false] + a, [false] + b)
  {
  }

  /** Division is the inverse of multiplication, up to the remainder. */
  lemma {:induction false} DivideIs(r: Poly, bits: Poly, g: Poly) returns (q: Poly)
    requires r != [] && |g| == |r| + 1 && g[0]
    ensures |q| == |bits|
    ensures Dividend(r, bits) == Plus(Times(q, g), Zeros(|bits|) + Divide(r, bits, g))
    decreases |bits|
  {
    hide Bring, Dividend, Row;
    if bits == [] {
      q := [];
      assert Dividend(r, bits) == r by {
        NothingDivided(r);
      }
      assert Plus(Zeros(|r|), Zeros(0) + r) == r;
    } else {
      var s := Bring(r, bits[0], g);
      var c := r[0] != bits[0];
      var p := DivideIs(s, bits[1..], g);
      q := [c] + p;
      assert q[1..] == p;
      Brought(r, bits, g);
      var row, rest, last := Row(c, g) + Zeros(|p|), Times(p, g), Zeros(|p|) + Divide(s, bits[1..], g);
      PlusShifted(rest, last);
      PlusAssoc(row, [false] + rest, [false] + last);
      assert [false] + last == Zeros(|bits|) + Divide(r, bits, g);
    }
  }

  lemma NothingDivided(r: Poly)
    ensures Dividend(r, []) == r
  {
  }

  lemma {:induction false} DivideConcat(r: Poly, a: Poly, b: Poly, g: Poly)
    requires r != [] && |g| == |r| + 1
    ensures Divide(r, a + b, g) == Divide(Divide(r, a, g), b, g)
    decreases |a|
  {
    hide Bring;
    if a == [] {
      assert a + b == b;
    } else {
      assert (a + b)[1..] == a[1..] + b;
      DivideConcat(Bring(r, a[0], g), a[1..], b, g);
    }
  }

  // ---------------------------------------------------------------------
  // The coefficients of a register
  // ---------------------------------------------------------------------

  lemma PlusCons(x: bool, a: Poly, y: bool, b: Poly)
    requires |a| == |b|
    ensures Plus([x] + a, [y] + b) == [x != y] + Plus(a, b)
  {
  }

  lemma MixParts16(x: bv16, y: bv16)
    ensures Head16(Mix16(x, y)) == (Head16(x) != Head16(y))
    ensures Tail16(Mix16(x, y)) == Mix16(Tail16(x), Tail16(y))
  {
    Bits16(x, y);
  }

  lemma {:induction false} MixCoeffs16(x: bv16, y: bv16, n: nat)
    ensures Coeffs16(Mix16(x, y), n) == Plus(Coeffs16(x, n), Coeffs16(y, n))
    decreases n
  {
    hide Mix16, Head16, Tail16;
    if n > 0 {
      MixParts16(x, y);
      MixCoeffs16(Tail16(x), Tail16(y), n - 1);
      var a, b := Coeffs16(Tail16(x), n - 1), Coeffs16(Tail16(y), n - 1);
      PlusCons(Head16(x), a, Head16(y), b);
    }
  }

  function Tails16(r: bv16, n: nat): bv16
    decreases n
  {
    if n == 0 then r else Tails16(Tail16(r), n - 1)
  }

  lemma {:induction false} TailsAdd16(r: bv16, a: nat, b: nat)
    ensures Tails16(r, a + b) == Tails16(Tails16(r, a), b)
    decreases a
  {
    hide Tail16;
    if a > 0 {
      TailsAdd16(Tail16(r), a - 1, b);
    }
  }

  lemma {:induction false} LastCoeff16(r: bv16, n: nat)
    ensures Coeffs16(r, n + 1) == Coeffs16(r, n) + [Head16(Tails16(r, n))]
    decreases n
  {
    hide Head16, Tail16;
    if n > 0 {
      LastCoeff16(Tail16(r), n - 1);
    } else {
      assert Coeffs16(Tail16(r), 0) == [];
    }
  }

  lemma FourTails16(r: bv16)
    ensures Tails16(r, 4) == r << 4
  {
    assert Tails16(r << 4, 0) == r << 4;
    assert Tails16(r << 3, 1) == r << 4;
    assert Tails16(r << 2, 2) == r << 4;
    assert Tails16(r << 1, 3) == r << 4;
  }

  lemma MixParts32(x: bv32, y: bv32)
    ensures Head32(Mix32(x, y)) == (Head32(x) != Head32(y))
    ensures Tail32(Mix32(x, y)) == Mix32(Tail32(x), Tail32(y))
  {
    Bits32(x, y);
  }

  lemma {:induction false} MixCoeffs32(x: bv32, y: bv32, n: nat)
    ensures Coeffs32(Mix32(x, y), n) == Plus(Coeffs32(x, n), Coeffs32(y, n))
    decreases n
  {
    hide Mix32, Head32, Tail32;
    if n > 0 {
      MixParts32(x, y);
      MixCoeffs32(Tail32(x), Tail32(y), n - 1);
      var a, b := Coeffs32(Tail32(x), n - 1), Coeffs32(Tail32(y), n - 1);
      PlusCons(Head32(x), a, Head32(y), b);
    }
  }

  function Tails32(r: bv32, n: nat): bv32
    decreases n
  {
    if n == 0 then r else Tails32(Tail32(r), n - 1)
  }

  lemma {:induction false} TailsAdd32(r: bv32, a: nat, b: nat)
    ensures Tails32(r, a + b) == Tails32(Tails32(r, a), b)
    decreases a
  {
    hide Tail32;
    if a > 0 {
      TailsAdd32(Tail32(r), a - 1, b);
    }
  }

  lemma {:induction false} LastCoeff32(r: bv32, n: nat)
    ensures Coeffs32(r, n + 1) == Coeffs32(r, n) + [Head32(Tails32(r, n))]
    decreases n
  {
    hide Head32, Tail32;
    if n > 0 {
      LastCoeff32(Tail32(r), n - 1);
    } else {
      assert Coeffs32(Tail32(r), 0) == [];
    }
  }

  lemma FourTails32(r: bv32)
    ensures Tails32(r, 4) == r >> 4
  {
    assert Tails32(r >> 4, 0) == r >> 4;
    assert Tails32(r >> 3, 1) == r >> 4;
    assert Tails32(r >> 2, 2) == r >> 4;
    assert Tails32(r >> 1, 3) == r >> 4;
  }

  lemma PlusZeros(a: Poly)
    ensures Plus(a, Zeros(|a|)) == a
  {
  }

  /** Nothing is left of a register in the end. */
  lemma NoTails16(r: bv16)
    ensures Tails16(r, 16) == 0
  {
    hide Tails16;
    TailsAdd16(r, 4, 4);
    TailsAdd16(r, 8, 4);
    TailsAdd16(r, 12, 4);
    FourTails16(r);
    FourTails16(r << 4);
    FourTails16(r << 8);
    FourTails16(r << 12);
  }

  lemma TailCoeffs16(r: bv16)
    ensures Coeffs16(Tail16(r), 16) == Coeffs16(r, 16)[1..] + [false]
  {
    hide Tail16;
    LastCoeff16(Tail16(r), 15);
    NoTails16(r);
  }

  lemma Shifted16(r: bv16) returns (a: bv16, b: bv16, c: bv16, d: bv16)
    ensures a == Tail16(r) && b == Tail16(a) && c == Tail16(b) && d == Tail16(c)
    ensures a == r << 1 && b == r << 2 && c == r << 3 && d == r << 4
  {
    a := r << 1;
    b := r << 2;
    c := r << 3;
    d := r << 4;
  }

  lemma TwoCoeffs16(r: bv16, a: bv16, b: bv16, n: nat)
    requires a == Tail16(r) && b == Tail16(a)
    ensures Coeffs16(r, n + 2) == [Head16(r), Head16(a)] + Coeffs16(b, n)
  {
    hide Head16, Tail16;
    assert Coeffs16(a, n + 1) == [Head16(a)] + Coeffs16(b, n);
  }

  lemma ChainCoeffs16(r: bv16, a: bv16, b: bv16, c: bv16, d: bv16, n: nat)
    requires a == Tail16(r) && b == Tail16(a) && c == Tail16(b) && d == Tail16(c)
    ensures Coeffs16(r, n + 4) == [Head16(r), Head16(a), Head16(b), Head16(c)] + Coeffs16(d, n)
  {
    hide Head16, Tail16, Coeffs16;
    TwoCoeffs16(b, c, d, n);
    TwoCoeffs16(r, a, b, n + 2);
  }

  lemma FourCoeffs16(r: bv16, n: nat)
    ensures Coeffs16(r, n + 4) == [Head16(r), Head16(r << 1), Head16(r << 2), Head16(r << 3)] + Coeffs16(r << 4, n)
  {
    hide Head16, Tail16, Coeffs16;
    var a, b, c, d := Shifted16(r);
    ChainCoeffs16(r, a, b, c, d, n);
  }

  lemma Halved32(r: bv32) returns (a: bv32, b: bv32)
    ensures a == r >> 4 && b == a >> 4 && b == r >> 8
  {
    a := r >> 4;
    b := a >> 4;
  }

  lemma TailsTwice32(r: bv32, x: bv32, y: bv32, n: nat)
    requires Tails32(r, n) == x && Tails32(x, n) == y
    ensures Tails32(r, 2 * n) == y
  {
    hide Tails32;
    TailsAdd32(r, n, n);
  }

  lemma ByteTails32(r: bv32) returns (b: bv32)
    ensures b == r >> 8 && Tails32(r, 8) == b
  {
    hide Tails32;
    var a, c := Halved32(r);
    b := c;
    FourTails32(r);
    FourTails32(a);
    TailsTwice32(r, a, b, 4);
  }

  lemma Emptied(r: bv32, a: bv32, b: bv32, c: bv32, d: bv32)
    requires a == r >> 8 && b == a >> 8 && c == b >> 8 && d == c >> 8
    ensures d == 0
  {
  }

  /** Nothing is left of a register in the end. */
  lemma NoTails32(r: bv32)
    ensures Tails32(r, 32) == 0
  {
    hide Tails32;
    var a := ByteTails32(r);
    var b := ByteTails32(a);
    var c := ByteTails32(b);
    var d := ByteTails32(c);
    TailsTwice32(r, a, b, 8);
    TailsTwice32(b, c, d, 8);
    TailsTwice32(r, b, d, 16);
    Emptied(r, a, b, c, d);
  }

  lemma TailCoeffs32(r: bv32)
    ensures Coeffs32(Tail32(r), 32) == Coeffs32(r, 32)[1..] + [false]
  {
    hide Tail32;
    LastCoeff32(Tail32(r), 31);
    NoTails32(r);
  }

  lemma Shifted32(r: bv32) returns (a: bv32, b: bv32, c: bv32, d: bv32)
    ensures a == Tail32(r) && b == Tail32(a) && c == Tail32(b) && d == Tail32(c)
    ensures a == r >> 1 && b == r >> 2 && c == r >> 3 && d == r >> 4
  {
    a := r >> 1;
    b := r >> 2;
    c := r >> 3;
    d := r >> 4;
  }

  lemma TwoCoeffs32(r: bv32, a: bv32, b: bv32, n: nat)
    requires a == Tail32(r) && b == Tail32(a)
    ensures Coeffs32(r, n + 2) == [Head32(r), Head32(a)] + Coeffs32(b, n)
  {
    hide Head32, Tail32;
    assert Coeffs32(a, n + 1) == [Head32(a)] + Coeffs32(b, n);
  }

  lemma ChainCoeffs32(r: bv32, a: bv32, b: bv32, c: bv32, d: bv32, n: nat)
    requires a == Tail32(r) && b == Tail32(a) && c == Tail32(b) && d == Tail32(c)
    ensures Coeffs32(r, n + 4) == [Head32(r), Head32(a), Head32(b), Head32(c)] + Coeffs32(d, n)
  {
    hide Head32, Tail32, Coeffs32;
    TwoCoeffs32(b, c, d, n);
    TwoCoeffs32(r, a, b, n + 2);
  }

  lemma FourCoeffs32(r: bv32, n: nat)
    ensures Coeffs32(r, n + 4) == [Head32(r), Head32(r >> 1), Head32(r >> 2), Head32(r >> 3)] + Coeffs32(r >> 4, n)
  {
    hide Head32, Tail32, Coeffs32;
    var a, b, c, d := Shifted32(r);
    ChainCoeffs32(r, a, b, c, d, n);
  }

  lemma Generator16()
    ensures G16[1..] ==
            [false, false, false, true] +
            [false, false, false, false] +
            [false, false, true, false] +
            [false, false, false, true]
  {
  }

  /** The constant of the shift step is the generator without its leading term. */
  lemma Taps16()
    ensures Coeffs16(0x1021, 16) == G16[1..]
  {
    hide Sum, Tail16, Coeffs16;
    assert Coeffs16(0, 0) == [];
    FourCoeffs16(0x1021, 12);
    FourCoeffs16(0x0210, 8);
    FourCoeffs16(0x2100, 4);
    FourCoeffs16(0x1000, 0);
    Generator16();
  }

  lemma Generator32()
    ensures G32[1..] ==
            [false, false, false, false] +
            [false, true, false, false] +
            [true, true, false, false] +
            [false, false, false, true] +
            [false, false, false, true] +
            [true, true, false, true] +
            [true, false, true, true] +
            [false, true, true, true]
  {
  }

  lemma LowTaps32()
    ensures Coeffs32(0xEDB8_8320, 32) ==
            [false, false, false, false] + [false, true, false, false] +
            [true, true, false, false] + [false, false, false, true] + Coeffs32(0x0000_EDB8, 16)
  {
    hide Tail32, Coeffs32;
    FourCoeffs32(0xEDB8_8320, 28);
    FourCoeffs32(0x0EDB_8832, 24);
    FourCoeffs32(0x00ED_B883, 20);
    FourCoeffs32(0x000E_DB88, 16);
  }

  lemma HighTaps32()
    ensures Coeffs32(0x0000_EDB8, 16) ==
            [false, false, false, true] + [true, true, false, true] +
            [true, false, true, true] + [false, true, true, true]
  {
    hide Tail32, Coeffs32;
    FourCoeffs32(0x0000_EDB8, 12);
    FourCoeffs32(0x0000_0EDB, 8);
    FourCoeffs32(0x0000_00ED, 4);
    FourCoeffs32(0x0000_000E, 0);
    assert Coeffs32(0, 0) == [];
  }

  /** The constant of the shift step is the generator without its leading term. */
  lemma Taps32()
    ensures Coeffs32(0xEDB8_8320, 32) == G32[1..]
  {
    hide Sum, Coeffs32;
    LowTaps32();
    HighTaps32();
    Generator32();
  }

  // ---------------------------------------------------------------------
  // The registers divide
  // ---------------------------------------------------------------------

  /** One step of a register, with the next bit of the text mixed in. */
  function Absorb16(r: bv16, m: bool): bv16
  {
    Shift16(Mix16(r, if m then 0x8000 else 0))
  }

  function Absorb32(r: bv32, m: bool): bv32
  {
    Shift32(Mix32(r, if m then 1 else 0))
  }

  lemma ShiftTop16(r: bv16)
    ensures Shift16(r) == if Head16(r) then Mix16(Tail16(r), 0x1021) else Tail16(r)
    ensures Shift16(0x8000) == 0x1021
  {
  }

  lemma ShiftTop32(r: bv32)
    ensures Shift32(r) == if Head32(r) then Mix32(Tail32(r), 0xEDB8_8320) else Tail32(r)
    ensures Shift32(1) == 0xEDB8_8320
  {
  }

  /** The bit mixed in only decides whether the generator is taken off. */
  lemma MixedIn16(r: bv16, m: bool)
    ensures Absorb16(r, m) == if Head16(r) != m then Mix16(Tail16(r), 0x1021) else Tail16(r)
  {
    hide Shift16, Mix16, Head16, Tail16;
    ShiftTop16(r);
    Shift16Linear(r, 0x8000);
    MixSelf16(r);
    MixCancel16(Tail16(r), 0x1021);
  }

  lemma MixedIn32(r: bv32, m: bool)
    ensures Absorb32(r, m) == if Head32(r) != m then Mix32(Tail32(r), 0xEDB8_8320) else Tail32(r)
  {
    hide Shift32, Mix32, Head32, Tail32;
    ShiftTop32(r);
    Shift32Linear(r, 1);
    MixSelf32(r);
    MixCancel32(Tail32(r), 0xEDB8_8320);
  }

  lemma AbsorbBrings16(r: bv16, m: bool)
    ensures Coeffs16(Absorb16(r, m), 16) == Bring(Coeffs16(r, 16), m, G16)
  {
    hide Absorb16, Mix16, Head16, Tail16, Sum;
    MixedIn16(r, m);
    TailCoeffs16(r);
    MixCoeffs16(Tail16(r), 0x1021, 16);
    Taps16();
    PlusZeros(Coeffs16(Tail16(r), 16));
    assert Coeffs16(r, 16)[0] == Head16(r);
  }

  lemma AbsorbBrings32(r: bv32, m: bool)
    ensures Coeffs32(Absorb32(r, m), 32) == Bring(Coeffs32(r, 32), m, G32)
  {
    hide Absorb32, Mix32, Head32, Tail32, Sum;
    MixedIn32(r, m);
    TailCoeffs32(r);
    MixCoeffs32(Tail32(r), 0xEDB8_8320, 32);
    Taps32();
    PlusZeros(Coeffs32(Tail32(r), 32));
    assert Coeffs32(r, 32)[0] == Head32(r);
  }

  lemma PutBack16(w: bv16, t: bv16)
    ensures Mix16(t, Mix16(w, t)) == w
  {
  }

  lemma Peel16(w: bv16, t: bv16)
    requires t == if Head16(w) then 0x8000 else 0
    ensures Mix16(w, t) & 0x8000 == 0 && Mix16(w, t) << 1 == Tail16(w)
  {
  }

  lemma PutBack32(w: bv32, t: bv32)
    ensures Mix32(t, Mix32(w, t)) == w
  {
  }

  lemma Peel32(w: bv32, t: bv32)
    requires t == if Head32(w) then 1 else 0
    ensures Mix32(w, t) & 1 == 0 && Mix32(w, t) >> 1 == Tail32(w)
  {
  }

  /** A shift of the register with text still mixed in absorbs one bit of it. */
  lemma ShiftAbsorbs16(r: bv16, w: bv16)
    ensures Shift16(Mix16(r, w)) == Mix16(Absorb16(r, Head16(w)), Tail16(w))
  {
    hide Mix16, Shift16, Head16, Tail16;
    var t := if Head16(w) then 0x8000 else 0;
    Peel16(w, t);
    PutBack16(w, t);
    MixAssoc16(r, t, Mix16(w, t));
    Shift16Linear(Mix16(r, t), Mix16(w, t));
    FreeShift16(Mix16(w, t));
  }

  lemma ShiftAbsorbs32(r: bv32, w: bv32)
    ensures Shift32(Mix32(r, w)) == Mix32(Absorb32(r, Head32(w)), Tail32(w))
  {
    hide Mix32, Shift32, Head32, Tail32;
    var t := if Head32(w) then 1 else 0;
    Peel32(w, t);
    PutBack32(w, t);
    MixAssoc32(r, t, Mix32(w, t));
    Shift32Linear(Mix32(r, t), Mix32(w, t));
    Halve32(Mix32(w, t), Tail32(w));
  }

  lemma NoCoeffs()
    ensures forall r :: Coeffs16(r, 0) == []
    ensures forall r :: Coeffs32(r, 0) == []
  {
  }

  /** A register after the first `n` bits of a word. */
  function Absorbed16(r: bv16, w: bv16, n: nat): bv16
    decreases n
  {
    if n == 0 then r else Absorbed16(Absorb16(r, Head16(w)), Tail16(w), n - 1)
  }

  lemma {:induction false} ShiftsAbsorb16(r: bv16, w: bv16, n: nat)
    ensures Shifts16(Mix16(r, w), n) == Mix16(Absorbed16(r, w, n), Tails16(w, n))
    decreases n
  {
    hide Absorb16, Shift16, Mix16, Head16, Tail16;
    if n > 0 {
      var s := Absorb16(r, Head16(w));
      ShiftsAbsorb16(s, Tail16(w), n - 1);
      ShiftAbsorbs16(r, w);
      Shifts16Add(Mix16(r, w), 1, n - 1);
      assert Shifts16(Mix16(r, w), 0) == Mix16(r, w);
      assert Shifts16(Mix16(r, w), 1) == Shift16(Mix16(r, w));
    }
  }

  lemma {:induction false} AbsorbedDivides16(r: bv16, w: bv16, n: nat)
    ensures Coeffs16(Absorbed16(r, w, n), 16) == Divide(Coeffs16(r, 16), Coeffs16(w, n), G16)
    decreases n
  {
    hide Absorb16, Head16, Tail16, Bring, Sum;
    if n > 0 {
      var s := Absorb16(r, Head16(w));
      AbsorbBrings16(r, Head16(w));
      AbsorbedDivides16(s, Tail16(w), n - 1);
      assert Coeffs16(w, n)[1..] == Coeffs16(Tail16(w), n - 1);
    }
  }

  lemma Nibbles16(x: bv8, w: bv16) returns (v: bv16)
    requires w == ((x as bv16) << 8)
    ensures v == w << 4 && v << 4 == 0
  {
    v := w << 4;
  }

  lemma WordEnds16(x: bv8, w: bv16)
    requires w == ((x as bv16) << 8)
    ensures Tails16(w, 8) == 0
  {
    hide Tails16;
    var v := Nibbles16(x, w);
    FourTails16(w);
    FourTails16(v);
    TailsAdd16(w, 4, 4);
  }

  lemma WordByte16(x: bv8, w: bv16)
    requires w == ((x as bv16) << 8)
    ensures x == (w >> 8) as bv8
  {
  }

  lemma WordBits16(x: bv8, w: bv16, v: bv16)
    requires x == (w >> 8) as bv8 && v == w << 4
    ensures Head16(w) == (x & 0x80 != 0)
    ensures Head16(w << 1) == (x & 0x40 != 0)
    ensures Head16(w << 2) == (x & 0x20 != 0)
    ensures Head16(w << 3) == (x & 0x10 != 0)
    ensures Head16(v) == (x & 0x08 != 0)
    ensures Head16(v << 1) == (x & 0x04 != 0)
    ensures Head16(v << 2) == (x & 0x02 != 0)
    ensures Head16(v << 3) == (x & 0x01 != 0)
  {
  }

  lemma ByteCoeffs16(x: bv8, w: bv16)
    requires x == (w >> 8) as bv8
    ensures Coeffs16(w, 8) == HighBits(x)
  {
    hide Coeffs16, Head16, Tail16;
    var v := w << 4;
    WordBits16(x, w, v);
    FourCoeffs16(w, 4);
    FourCoeffs16(v, 0);
    NoCoeffs();
  }

  /** A register after the first `n` bits of a word. */
  function Absorbed32(r: bv32, w: bv32, n: nat): bv32
    decreases n
  {
    if n == 0 then r else Absorbed32(Absorb32(r, Head32(w)), Tail32(w), n - 1)
  }

  lemma {:induction false} ShiftsAbsorb32(r: bv32, w: bv32, n: nat)
    ensures Shifts32(Mix32(r, w), n) == Mix32(Absorbed32(r, w, n), Tails32(w, n))
    decreases n
  {
    hide Absorb32, Shift32, Mix32, Head32, Tail32;
    if n > 0 {
      var s := Absorb32(r, Head32(w));
      ShiftsAbsorb32(s, Tail32(w), n - 1);
      ShiftAbsorbs32(r, w);
      Shifts32Add(Mix32(r, w), 1, n - 1);
      assert Shifts32(Mix32(r, w), 0) == Mix32(r, w);
      assert Shifts32(Mix32(r, w), 1) == Shift32(Mix32(r, w));
    }
  }

  lemma {:induction false} AbsorbedDivides32(r: bv32, w: bv32, n: nat)
    ensures Coeffs32(Absorbed32(r, w, n), 32) == Divide(Coeffs32(r, 32), Coeffs32(w, n), G32)
    decreases n
  {
    hide Absorb32, Head32, Tail32, Bring, Sum;
    if n > 0 {
      var s := Absorb32(r, Head32(w));
      AbsorbBrings32(r, Head32(w));
      AbsorbedDivides32(s, Tail32(w), n - 1);
      assert Coeffs32(w, n)[1..] == Coeffs32(Tail32(w), n - 1);
    }
  }

  lemma Nibbles32(x: bv8, w: bv32) returns (v: bv32)
    requires w == (x as bv32)
    ensures v == w >> 4 && v >> 4 == 0
  {
    v := w >> 4;
  }

  lemma WordEnds32(x: bv8, w: bv32)
    requires w == (x as bv32)
    ensures Tails32(w, 8) == 0
  {
    hide Tails32;
    var v := Nibbles32(x, w);
    FourTails32(w);
    FourTails32(v);
    TailsAdd32(w, 4, 4);
  }

  lemma WordByte32(x: bv8, w: bv32)
    requires w == (x as bv32)
    ensures x == (w & 0xFF) as bv8
  {
  }

  lemma WordBits32(x: bv8, w: bv32, v: bv32)
    requires x == (w & 0xFF) as bv8 && v == w >> 4
    ensures Head32(w) == (x & 0x01 != 0)
    ensures Head32(w >> 1) == (x & 0x02 != 0)
    ensures Head32(w >> 2) == (x & 0x04 != 0)
    ensures Head32(w >> 3) == (x & 0x08 != 0)
    ensures Head32(v) == (x & 0x10 != 0)
    ensures Head32(v >> 1) == (x & 0x20 != 0)
    ensures Head32(v >> 2) == (x & 0x40 != 0)
    ensures Head32(v >> 3) == (x & 0x80 != 0)
  {
  }

  lemma ByteCoeffs32(x: bv8, w: bv32)
    requires x == (w & 0xFF) as bv8
    ensures Coeffs32(w, 8) == LowBits(x)
  {
    hide Coeffs32, Head32, Tail32;
    var v := w >> 4;
    WordBits32(x, w, v);
    FourCoeffs32(w, 4);
    FourCoeffs32(v, 0);
    NoCoeffs();
  }

  lemma UpdateDivides16(crc: bv16, b: byte)
    ensures Coeffs16(Update16(crc, b), 16) == Divide(Coeffs16(crc, 16), HighBits(b as bv8), G16)
  {
    hide Shifts16, Mix16, Absorbed16, Tails16, Coeffs16, Divide, HighBits, Sum;
    var w := Wide16(b);
    ShiftsAbsorb16(crc, w, 8);
    WordEnds16(b as bv8, w);
    WordByte16(b as bv8, w);
    ByteCoeffs16(b as bv8, w);
    MixSelf16(Absorbed16(crc, w, 8));
    AbsorbedDivides16(crc, w, 8);
  }

  lemma {:induction false} RegisterDivides16(crc: bv16, data: seq<byte>)
    ensures Coeffs16(Register16(crc, data), 16) == Divide(Coeffs16(crc, 16), HighFirst(data), G16)
    decreases |data|
  {
    hide Update16, Coeffs16, HighBits, Bring, Sum;
    if data != [] {
      var head, b := data[..|data| - 1], data[|data| - 1];
      RegisterDivides16(crc, head);
      UpdateDivides16(Register16(crc, head), b);
      DivideConcat(Coeffs16(crc, 16), HighFirst(head), HighBits(b as bv8), G16);
    }
  }

  lemma UpdateDivides32(crc: bv32, b: byte)
    ensures Coeffs32(Update32(crc, b), 32) == Divide(Coeffs32(crc, 32), LowBits(b as bv8), G32)
  {
    hide Shifts32, Mix32, Absorbed32, Tails32, Coeffs32, Divide, LowBits, Sum;
    var w := Wide32(b);
    ShiftsAbsorb32(crc, w, 8);
    WordEnds32(b as bv8, w);
    WordByte32(b as bv8, w);
    ByteCoeffs32(b as bv8, w);
    MixSelf32(Absorbed32(crc, w, 8));
    AbsorbedDivides32(crc, w, 8);
  }

  lemma {:induction false} RegisterDivides32(crc: bv32, data: seq<byte>)
    ensures Coeffs32(Register32(crc, data), 32) == Divide(Coeffs32(crc, 32), LowFirst(data), G32)
    decreases |data|
  {
    hide Update32, Coeffs32, LowBits, Bring, Sum;
    if data != [] {
      var head, b := data[..|data| - 1], data[|data| - 1];
      RegisterDivides32(crc, head);
      UpdateDivides32(Register32(crc, head), b);
      DivideConcat(Coeffs32(crc, 32), LowFirst(head), LowBits(b as bv8), G32);
    }
  }

  lemma Leading()
    ensures |G16| == 17 && G16[0] && |G32| == 33 && G32[0]
  {
  }

  lemma NoRegister16()
    ensures Coeffs16(0, 16) == Zeros(16)
  {
    hide Coeffs16, Tail16;
    FourCoeffs16(0, 12);
    FourCoeffs16(0, 8);
    FourCoeffs16(0, 4);
    FourCoeffs16(0, 0);
    NoCoeffs();
  }

  lemma LowOnes32()
    ensures Coeffs32(0xFFFF_FFFF, 32) == Ones(16) + Coeffs32(0xFFFF, 16)
  {
    hide Coeffs32, Tail32;
    FourCoeffs32(0xFFFF_FFFF, 28);
    FourCoeffs32(0x0FFF_FFFF, 24);
    FourCoeffs32(0x00FF_FFFF, 20);
    FourCoeffs32(0x000F_FFFF, 16);
  }

  lemma AllOnes32()
    ensures Coeffs32(0xFFFF_FFFF, 32) == Ones(32)
  {
    hide Coeffs32, Tail32;
    LowOnes32();
    FourCoeffs32(0xFFFF, 12);
    FourCoeffs32(0x0FFF, 8);
    FourCoeffs32(0x00FF, 4);
    FourCoeffs32(0x000F, 0);
    NoCoeffs();
  }

  lemma NotIsMix(x: bv32)
    ensures !x == Mix32(x, 0xFFFF_FFFF) && Mix32(x, !x) == 0xFFFF_FFFF
  {
  }

  lemma NotCoeffs32(x: bv32)
    ensures Coeffs32(!x, 32) == Plus(Coeffs32(x, 32), Ones(32))
  {
    hide Coeffs32, Mix32;
    NotIsMix(x);
    MixCoeffs32(x, 0xFFFF_FFFF, 32);
    AllOnes32();
  }

  lemma ComplementTwice(a: Poly)
    ensures Plus(Plus(a, Ones(|a|)), Ones(|a|)) == a
  {
  }

  lemma Remaining(r: Poly, g: Poly)
    requires |g| == |r| + 1
    ensures Plus(Times([], g), Zeros(0) + r) == r
  {
    assert Zeros(0) + r == r;
  }

  lemma FirstRow(q: Poly, r: Poly, g: Poly)
    requires q != [] && g != [] && |r| == |g| - 1
    ensures Plus(Times(q, g), Zeros(|q|) + r) ==
            Plus(Row(q[0], g) + Zeros(|q| - 1), [false] + Plus(Times(q[1..], g), Zeros(|q| - 1) + r))
  {
    hide Plus, Row, Zeros;
    var row, rest, last := Row(q[0], g) + Zeros(|q| - 1), Times(q[1..], g), Zeros(|q| - 1) + r;
    assert Times(q, g) == Plus(row, [false] + rest);
    LeadingZero(|q| - 1, r);
    PlusShifted(rest, last);
    PlusAssoc(row, [false] + rest, [false] + last);
  }

  lemma LeadingZero(n: nat, r: Poly)
    ensures [false] + (Zeros(n) + r) == Zeros(n + 1) + r
  {
  }

  lemma SameRow(c: bool, x: Poly, d: bool, y: Poly, g: Poly)
    requires g != [] && g[0] && |x| == |y| >= |g| - 1
    requires Plus(Row(c, g) + Zeros(|x| + 1 - |g|), [false] + x) == Plus(Row(d, g) + Zeros(|x| + 1 - |g|), [false] + y)
    ensures c == d && x == y
  {
    var a, b := Row(c, g) + Zeros(|x| + 1 - |g|), Row(d, g) + Zeros(|x| + 1 - |g|);
    var s, t := Plus(a, [false] + x), Plus(b, [false] + y);
    assert s[0] == c && t[0] == d;
    forall i | 0 <= i < |x|
      ensures x[i] == y[i]
    {
      assert s[i + 1] == (a[i + 1] != x[i]) && t[i + 1] == (b[i + 1] != y[i]);
    }
  }

  // ---------------------------------------------------------------------
  // Main results
  // ---------------------------------------------------------------------

  /** CRC-16/XMODEM: the text, moved up by sixteen places, is a multiple of
      x^16 + x^12 + x^5 + 1 plus its checksum. */
  lemma Crc16IsRemainder(data: seq<byte>) returns (q: Poly)
    ensures |q| == 8 * |data|
    ensures HighFirst(data) + Zeros(16) ==
            Plus(Times(q, Sum(16, {16, 12, 5, 0})), Zeros(8 * |data|) + Coeffs16(Crc16Of(data), 16))
  {
    hide Coeffs16, Register16, Divide, Times, Sum;
    Leading();
    NoRegister16();
    RegisterDivides16(0, data);
    var bits := HighFirst(data);
    q := DivideIs(Zeros(16), bits, G16);
    assert Dividend(Zeros(16), bits) == bits + Zeros(16);
  }

  /** CRC-32/ISO-HDLC: the text with its low bits first, moved up by thirty-two places
      and its first thirty-two coefficients complemented, is a multiple of the
      generator plus the complement of its checksum. */
  lemma Crc32IsRemainder(data: seq<byte>) returns (q: Poly)
    ensures |q| == 8 * |data|
    ensures Plus(LowFirst(data) + Zeros(32), Ones(32) + Zeros(8 * |data|)) ==
            Plus(Times(q, Sum(32, {32, 26, 23, 22, 16, 12, 11, 10, 8, 7, 5, 4, 2, 1, 0})),
                 Zeros(8 * |data|) + Plus(Coeffs32(Crc32Of(data), 32), Ones(32)))
  {
    hide Coeffs32, Register32, Divide, Times, Sum;
    Leading();
    AllOnes32();
    RegisterDivides32(0xFFFF_FFFF, data);
    var bits := LowFirst(data);
    q := DivideIs(Ones(32), bits, G32);
    var r := Register32(INIT32, data);
    NotCoeffs32(r);
    ComplementTwice(Coeffs32(r, 32));
    assert Dividend(Ones(32), bits) == Plus(bits + Zeros(32), Ones(32) + Zeros(|bits|));
  }

  /** There is one such remainder, and one such quotient. */
  lemma {:induction false} RemainderUnique(q: Poly, r: Poly, q': Poly, r': Poly, g: Poly)
    requires g != [] && g[0] && |q| == |q'| && |r| == |r'| == |g| - 1
    requires Plus(Times(q, g), Zeros(|q|) + r) == Plus(Times(q', g), Zeros(|q'|) + r')
    ensures q == q' && r == r'
    decreases |q|
  {
    hide Times, Plus, Row;
    if q == [] {
      Remaining(r, g);
      Remaining(r', g);
    } else {
      var x, y := Plus(Times(q[1..], g), Zeros(|q| - 1) + r), Plus(Times(q'[1..], g), Zeros(|q| - 1) + r');
      FirstRow(q, r, g);
      FirstRow(q', r', g);
      SameRow(q[0], x, q'[0], y, g);
      RemainderUnique(q[1..], r, q'[1..], r', g);
      assert q == [q[0]] + q[1..] && q' == [q'[0]] + q'[1..];
    }
  }

  // ---------------------------------------------------------------------
  // A text and its checksum as they travel
  // ---------------------------------------------------------------------

  lemma {:induction false} CoeffsConcat16(r: bv16, a: nat, b: nat)
    ensures Coeffs16(r, a + b) == Coeffs16(r, a) + Coeffs16(Tails16(r, a), b)
    decreases a
  {
    hide Head16, Tail16;
    if a > 0 {
      CoeffsConcat16(Tail16(r), a - 1, b);
    }
  }

  lemma {:induction false} CoeffsConcat32(r: bv32, a: nat, b: nat)
    ensures Coeffs32(r, a + b) == Coeffs32(r, a) + Coeffs32(Tails32(r, a), b)
    decreases a
  {
    hide Head32, Tail32;
    if a > 0 {
      CoeffsConcat32(Tail32(r), a - 1, b);
    }
  }

  lemma {:induction false} TextConcat(a: seq<byte>, b: seq<byte>)
    ensures HighFirst(a + b) == HighFirst(a) + HighFirst(b)
    ensures LowFirst(a + b) == LowFirst(a) + LowFirst(b)
    decreases |b|
  {
    hide HighBits, LowBits;
    if b == [] {
      assert a + b == a;
    } else {
      assert (a + b)[..|a + b| - 1] == a + b[..|b| - 1];
      TextConcat(a, b[..|b| - 1]);
    }
  }

  lemma TextOne(x: bv8)
    ensures HighFirst([Octet(x)]) == HighBits(x) && LowFirst([Octet(x)]) == LowBits(x)
  {
    hide Octet, HighBits, LowBits;
    BitsRoundTrip(x);
    assert [Octet(x)][..0] == [];
    assert HighFirst([]) == [] && LowFirst([]) == [];
  }

  lemma HighByteTails16(c: bv16) returns (d: bv16)
    ensures d == c << 8 && Tails16(c, 8) == d
    ensures (d >> 8) as bv8 == (c & 0xFF) as bv8
  {
    hide Tails16;
    var b := c << 4;
    d := c << 8;
    FourTails16(c);
    FourTails16(b);
    TailsAdd16(c, 4, 4);
  }

  /** A CRC-16 travels highest coefficient first. */
  lemma TrailerBits16(c: bv16)
    ensures HighFirst(BeBytes16(c)) == Coeffs16(c, 16)
  {
    hide HighBits, HighFirst, Coeffs16, Tails16, Octet;
    var x, y := (c >> 8) as bv8, (c & 0xFF) as bv8;
    var d := HighByteTails16(c);
    CoeffsConcat16(c, 8, 8);
    ByteCoeffs16(x, c);
    ByteCoeffs16(y, d);
    assert BeBytes16(c) == [Octet(x)] + [Octet(y)];
    TextConcat([Octet(x)], [Octet(y)]);
    TextOne(x);
    TextOne(y);
  }

  lemma Bytes32(c: bv32) returns (d: bv32, e: bv32, f: bv32)
    ensures Tails32(c, 8) == d && Tails32(d, 8) == e && Tails32(e, 8) == f
    ensures (d & 0xFF) as bv8 == ((c >> 8) & 0xFF) as bv8
    ensures (e & 0xFF) as bv8 == ((c >> 16) & 0xFF) as bv8
    ensures (f & 0xFF) as bv8 == ((c >> 24) & 0xFF) as bv8
  {
    hide Tails32;
    d := ByteTails32(c);
    e := ByteTails32(d);
    f := ByteTails32(e);
  }

  /** A CRC-32 travels highest coefficient first as well: its low bits are the high ones. */
  lemma TrailerBits32(c: bv32)
    ensures LowFirst(LeBytes32(c)) == Coeffs32(c, 32)
  {
    hide LowBits, LowFirst, Coeffs32, Tails32, Octet;
    var w, x, y, z := (c & 0xFF) as bv8, ((c >> 8) & 0xFF) as bv8, ((c >> 16) & 0xFF) as bv8, ((c >> 24) & 0xFF) as bv8;
    var d, e, f := Bytes32(c);
    CoeffsConcat32(c, 8, 24);
    CoeffsConcat32(d, 8, 16);
    CoeffsConcat32(e, 8, 8);
    ByteCoeffs32(w, c);
    ByteCoeffs32(x, d);
    ByteCoeffs32(y, e);
    ByteCoeffs32(z, f);
    FourTexts(w, x, y, z);
    assert LeBytes32(c) == [Octet(w), Octet(x), Octet(y), Octet(z)];
  }

  lemma FourTexts(w: bv8, x: bv8, y: bv8, z: bv8)
    ensures LowFirst([Octet(w), Octet(x), Octet(y), Octet(z)]) == LowBits(w) + (LowBits(x) + (LowBits(y) + LowBits(z)))
  {
    hide LowBits, LowFirst, Octet;
    TextOne(w);
    TextOne(x);
    TextOne(y);
    TextOne(z);
    TextConcat([Octet(y)], [Octet(z)]);
    TextConcat([Octet(x)], [Octet(y)] + [Octet(z)]);
    TextConcat([Octet(w)], [Octet(x)] + ([Octet(y)] + [Octet(z)]));
    assert [Octet(w), Octet(x), Octet(y), Octet(z)] == [Octet(w)] + ([Octet(x)] + ([Octet(y)] + [Octet(z)]));
  }

  lemma Moved(a: Poly, m: Poly, r: Poly)
    requires |m| == |a| + |r| && a + Zeros(|r|) == Plus(m, Zeros(|a|) + r)
    ensures a + r == m
  {
    var s := Plus(m, Zeros(|a|) + r);
    forall i | 0 <= i < |m|
      ensures (a + r)[i] == m[i]
    {
      assert (a + Zeros(|r|))[i] == s[i];
    }
  }

  /** A text with its CRC-16 behind it, as it travels, is a multiple of the generator. */
  lemma SealedIsMultiple16(data: seq<byte>) returns (q: Poly)
    ensures |q| == 8 * |data|
    ensures HighFirst(data + BeBytes16(Crc16Of(data))) == Times(q, Sum(16, {16, 12, 5, 0}))
  {
    hide HighFirst, Times, Crc16Of, Coeffs16, Sum;
    q := Crc16IsRemainder(data);
    var c := Crc16Of(data);
    TextConcat(data, BeBytes16(c));
    TrailerBits16(c);
    Moved(HighFirst(data), Times(q, Sum(16, {16, 12, 5, 0})), Coeffs16(c, 16));
  }

  lemma MovedBehind(a: Poly, i: Poly, m: Poly, r: Poly)
    requires |m| == |i| == |a| + |r|
    requires Plus(a + Zeros(|r|), i) == Plus(m, Zeros(|a|) + Plus(r, Ones(|r|)))
    ensures Plus(a + r, i) == Plus(m, Zeros(|a|) + Ones(|r|))
  {
    var s, t := Plus(a + Zeros(|r|), i), Plus(m, Zeros(|a|) + Plus(r, Ones(|r|)));
    forall k | 0 <= k < |m|
      ensures Plus(a + r, i)[k] == Plus(m, Zeros(|a|) + Ones(|r|))[k]
    {
      assert s[k] == t[k];
    }
  }

  /** The same for CRC-32, up to the complements at the front and at the end. */
  lemma SealedIsMultiple32(data: seq<byte>) returns (q: Poly)
    ensures |q| == 8 * |data|
    ensures Plus(LowFirst(data + LeBytes32(Crc32Of(data))), Ones(32) + Zeros(8 * |data|)) ==
            Plus(Times(q, Sum(32, {32, 26, 23, 22, 16, 12, 11, 10, 8, 7, 5, 4, 2, 1, 0})), Zeros(8 * |data|) + Ones(32))
  {
    hide LowFirst, Times, Crc32Of, Coeffs32, Sum;
    q := Crc32IsRemainder(data);
    var c := Crc32Of(data);
    TextConcat(data, LeBytes32(c));
    TrailerBits32(c);
    var m := Times(q, Sum(32, {32, 26, 23, 22, 16, 12, 11, 10, 8, 7, 5, 4, 2, 1, 0}));
    MovedBehind(LowFirst(data), Ones(32) + Zeros(8 * |data|), m, Coeffs32(c, 32));
  }
}
