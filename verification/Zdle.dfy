/** The ZDLE escape and unescape tables, and the escaped language they generate. */
module Zdle {
  import opened Primitives

  const ZPAD: byte := 0x2A
  const ZDLE: byte := 0x18
  const XON: byte := 0x11
  const CR: byte := 0x0D
  const LF: byte := 0x0A

  type Row = s: seq<byte> | |s| == 16 witness seq(16, i => 0)

  /** Sixteen consecutive values starting at `from`. */
  function Run(from: byte): Row
    requires from <= 0xF0
  {
    seq(16, i requires 0 <= i < 16 => from + i)
  }

  /** The escape table, one row of sixteen at a time: a run, but for the special values. */
  function EscapeRow(row: nat): Row
    requires row < 16
  {
    var plain := Run(16 * row);
    match row
    case 0x0 => plain[0xD := 0x4D]
    case 0x1 => plain[0x0 := 0x50][0x1 := 0x51][0x3 := 0x53][0x8 := 0x58]
    case 0x7 => plain[0xF := 0x6C]
    case 0x8 => plain[0xD := 0xCD]
    case 0x9 => plain[0x0 := 0xD0][0x1 := 0xD1][0x3 := 0xD3]
    case 0xF => plain[0xF := 0x6D]
    case _ => plain
  }

  /** The unescape table: rows 4, 5, 12 and 13 fold back by 0x40, row 6 holds 0x7f and 0xff. */
  function UnescapeRow(row: nat): Row
    requires row < 16
  {
    match row
    case 0x4 => Run(0x00)
    case 0x5 => Run(0x10)
    case 0x6 => Run(0x60)[0xC := 0x7F][0xD := 0xFF]
    case 0xC => Run(0x80)
    case 0xD => Run(0x90)
    case _ => Run(16 * row)
  }

  function EscapeTable(b: byte): byte
  {
    EscapeRow(b / 16)[b % 16]
  }

  function UnescapeTable(b: byte): byte
  {
    UnescapeRow(b / 16)[b % 16]
  }

  /** The eleven values that never travel bare. */
  predicate Special(b: byte)
  {
    || b == 0x0D || b == 0x10 || b == 0x11 || b == 0x13 || b == 0x18 || b == 0x7F
    || b == 0x8D || b == 0x90 || b == 0x91 || b == 0x93 || b == 0xFF
  }

  /** What stands for a special value after ZDLE. */
  function Cover(b: byte): (c: byte)
  {
    if b == 0x7F then 0x6C
    else if b == 0xFF then 0x6D
    else if Special(b) then b + 0x40
    else b
  }

  /** What a byte after ZDLE stands for. */
  function Uncover(b: byte): (c: byte)
  {
    if 0x40 <= b < 0x60 || 0xC0 <= b < 0xE0 then b - 0x40
    else if b == 0x6C then 0x7F
    else if b == 0x6D then 0xFF
    else b
  }

  lemma EscapeTableMeaning(b: byte)
    ensures EscapeTable(b) == Cover(b)
    ensures EscapeTable(b) != b <==> Special(b)
  {
    var row, col := b / 16, b % 16;
    assert b == 16 * row + col;
  }

  lemma UnescapeTableMeaning(b: byte)
    ensures UnescapeTable(b) == Uncover(b)
  {
    var row, col := b / 16, b % 16;
    assert b == 16 * row + col;
  }

  /** Covering is undone by uncovering, and never looks like framing. */
  lemma CoverSafe(b: byte)
    ensures Uncover(Cover(b)) == b || !Special(b)
    ensures Special(b) ==> !Special(Cover(b))
    ensures Special(b) ==> !(0x41 <= Cover(b) <= 0x43) && !(0x68 <= Cover(b) <= 0x6B)
    ensures Special(b) ==> Cover(b) != ZPAD
  {
  }

  // ---------------------------------------------------------------------
  // Escaping a slice
  // ---------------------------------------------------------------------

  function EscByte(b: byte): (e: seq<byte>)
    ensures 1 <= |e| <= 2
  {
    if Special(b) then [ZDLE, Cover(b)] else [b]
  }

  function Esc(data: seq<byte>): (e: seq<byte>)
  {
    if data == [] then [] else EscByte(data[0]) + Esc(data[1..])
  }

  lemma EscCons(b: byte, data: seq<byte>)
    ensures Esc([b] + data) == EscByte(b) + Esc(data)
  {
    assert ([b] + data)[1..] == data;
  }

  lemma {:induction false} EscConcat(a: seq<byte>, b: seq<byte>)
    ensures Esc(a + b) == Esc(a) + Esc(b)
    decreases |a|
  {
    if a == [] {
      assert a + b == b;
    } else {
      assert a + b == [a[0]] + (a[1..] + b);
      EscCons(a[0], a[1..] + b);
      EscConcat(a[1..], b);
    }
  }

  lemma {:induction false} EscSize(data: seq<byte>)
    ensures |data| <= |Esc(data)| <= 2 * |data|
    decreases |data|
  {
    if data != [] {
      EscSize(data[1..]);
    }
  }

  lemma {:induction false} EscPlain(data: seq<byte>)
    requires forall i :: 0 <= i < |data| ==> !Special(data[i])
    ensures Esc(data) == data
    decreases |data|
  {
    if data != [] {
      EscPlain(data[1..]);
      assert data == [data[0]] + data[1..];
    }
  }

  // ---------------------------------------------------------------------
  // The stateful reader: one wire byte at a time
  // ---------------------------------------------------------------------

  /** `pending` after one byte, and the decoded byte it completes, if any. */
  function UnescStep(pending: bool, b: byte): (bool, Option<byte>)
  {
    if pending then (false, Some(Uncover(b)))
    else if b == ZDLE then (true, None)
    else (false, Some(b))
  }

  /** Every byte decoded from a stretch of wire, and the flag left over. */
  function Unesc(pending: bool, wire: seq<byte>): (bool, seq<byte>)
    decreases |wire|
  {
    if wire == [] then (pending, [])
    else
      var (p, out) := UnescStep(pending, wire[0]);
      var (q, rest) := Unesc(p, wire[1..]);
      (q, (if out.Some? then [out.value] else []) + rest)
  }

  lemma {:induction false} UnescConcat(pending: bool, a: seq<byte>, b: seq<byte>)
    ensures
      var (p, x) := Unesc(pending, a);
      var (q, y) := Unesc(p, b);
      Unesc(pending, a + b) == (q, x + y)
    decreases |a|
  {
    if a == [] {
      assert a + b == b;
      assert [] + Unesc(pending, b).1 == Unesc(pending, b).1;
    } else {
      assert (a + b)[1..] == a[1..] + b;
      var (p, out) := UnescStep(pending, a[0]);
      UnescConcat(p, a[1..], b);
      var (r, x) := Unesc(p, a[1..]);
      var (q, y) := Unesc(r, b);
      var first := if out.Some? then [out.value] else [];
      assert first + (x + y) == (first + x) + y;
    }
  }

  lemma UnescOne(b: byte)
    ensures Unesc(false, EscByte(b)) == (false, [b])
  {
    CoverSafe(b);
    if Special(b) {
      var e := [ZDLE, Cover(b)];
      assert e[1..] == [Cover(b)] && e[1..][1..] == [];
      assert Unesc(true, [Cover(b)]) == (false, [b] + []);
      assert Unesc(false, e) == (false, [] + ([b] + []));
      assert [] + ([b] + []) == [b];
    } else {
      assert [b][1..] == [];
      assert Unesc(false, [b]) == (false, [b] + []);
      assert [b] + [] == [b];
    }
  }

  /** Escape transparency (section 7.2 of the ZMODEM specification): the reader
      recovers the slice exactly. */
  lemma {:induction false} EscRoundTrip(data: seq<byte>)
    ensures Unesc(false, Esc(data)) == (false, data)
    decreases |data|
  {
    if data != [] {
      UnescOne(data[0]);
      EscRoundTrip(data[1..]);
      UnescConcat(false, EscByte(data[0]), Esc(data[1..]));
      assert data == [data[0]] + data[1..];
    }
  }

  lemma EscInjective(a: seq<byte>, b: seq<byte>)
    requires Esc(a) == Esc(b)
    ensures a == b
  {
    EscRoundTrip(a);
    EscRoundTrip(b);
  }

  // ---------------------------------------------------------------------
  // What can appear on the wire
  // ---------------------------------------------------------------------

  /** ZDLE is always an introducer of something that is neither a header
      encoding nor another ZDLE, and it is never left dangling. */
  predicate NoFakeHeader(wire: seq<byte>)
  {
    forall i :: 0 <= i < |wire| && wire[i] == ZDLE ==>
      i + 1 < |wire| && !(0x41 <= wire[i + 1] <= 0x43) && wire[i + 1] != ZDLE
  }

  /** No byte of the wire is one of the ten specials other than ZDLE. */
  predicate NoBareSpecial(wire: seq<byte>)
  {
    forall i :: 0 <= i < |wire| && Special(wire[i]) ==> wire[i] == ZDLE
  }

  /** No ZDLE introduces a subpacket terminator. */
  predicate NoTerminator(wire: seq<byte>)
  {
    forall i :: 0 <= i < |wire| - 1 && wire[i] == ZDLE ==> !(0x68 <= wire[i + 1] <= 0x6B)
  }

  lemma NoFakeHeaderConcat(a: seq<byte>, b: seq<byte>)
    requires NoFakeHeader(a) && NoFakeHeader(b)
    ensures NoFakeHeader(a + b)
  {
    forall i | 0 <= i < |a + b| && (a + b)[i] == ZDLE
      ensures i + 1 < |a + b| && !(0x41 <= (a + b)[i + 1] <= 0x43) && (a + b)[i + 1] != ZDLE
    {
      if i < |a| {
        assert a[i] == ZDLE;
      } else {
        assert b[i - |a|] == ZDLE;
      }
    }
  }

  lemma NoFakeHeaderSuffix(wire: seq<byte>, k: nat)
    requires NoFakeHeader(wire) && k <= |wire|
    ensures NoFakeHeader(wire[k..])
  {
    forall i | 0 <= i < |wire[k..]| && wire[k..][i] == ZDLE
      ensures i + 1 < |wire[k..]| && !(0x41 <= wire[k..][i + 1] <= 0x43) && wire[k..][i + 1] != ZDLE
    {
      assert wire[k + i] == ZDLE;
    }
  }

  /** Escaped payload can forge neither framing, nor a terminator, nor a bare
      control value (sections 7.2 and 8.4). */
  lemma {:induction false} EscapedLanguage(data: seq<byte>)
    ensures NoFakeHeader(Esc(data)) && NoBareSpecial(Esc(data)) && NoTerminator(Esc(data))
    decreases |data|
  {
    if data != [] {
      CoverSafe(data[0]);
      EscapedLanguage(data[1..]);
      var a, b := EscByte(data[0]), Esc(data[1..]);
      NoFakeHeaderConcat(a, b);
      assert NoBareSpecial(a + b);
      assert NoTerminator(a + b);
    }
  }
}
