/** ZFILE metadata: the name and size a sender announces, printed and parsed. */
module FileMetadata {
  import opened Primitives
  import opened Buffers
  import opened HeaderCodec
  import opened Subpackets

  const NUL: byte := 0
  const SPACE: byte := 0x20
  const NAME_CAP: nat := 256

  const ZFILE_HEADER: Header := Header(ZBIN32, ZFILE, [0, 0, 0, 0])

  // ---------------------------------------------------------------------
  // Decimal sizes
  // ---------------------------------------------------------------------

  predicate AllDigits(s: seq<byte>)
  {
    forall i :: 0 <= i < |s| ==> 0x30 <= s[i] <= 0x39
  }

  /** The number a run of digits denotes. */
  function ValueOf(s: seq<byte>): nat
    requires AllDigits(s)
  {
    if s == [] then 0 else 10 * ValueOf(s[..|s| - 1]) + (s[|s| - 1] - 0x30)
  }

  function Decimal(n: nat): (s: seq<byte>)
    ensures |s| > 0 && AllDigits(s)
  {
    if n < 10 then [0x30 + n] else Decimal(n / 10) + [0x30 + n % 10]
  }

  lemma {:induction false} DecimalValue(n: nat)
    ensures ValueOf(Decimal(n)) == n
  {
    if n < 10 {
      assert Decimal(n)[..0] == [];
    } else {
      DecimalValue(n / 10);
      var s := Decimal(n);
      assert s[..|s| - 1] == Decimal(n / 10);
    }
  }

  function Pow10(k: nat): nat
  {
    if k == 0 then 1 else 10 * Pow10(k - 1)
  }

  lemma {:induction false} DecimalLength(n: nat, k: nat)
    requires k > 0 && n < Pow10(k)
    ensures |Decimal(n)| <= k
  {
    if n >= 10 {
      DecimalLength(n / 10, k - 1);
    }
  }

  /** What the size field means: nothing is zero, digits are their value as long
      as it fits 32 bits, anything else is malformed. */
  function SizeOf(field: seq<byte>): Result<u32>
  {
    if AllDigits(field) && ValueOf(field) < 0x1_0000_0000 then Ok(ValueOf(field)) else Err(MalformedFileSize)
  }

  lemma {:induction false} PrefixSmaller(s: seq<byte>, k: nat)
    requires AllDigits(s) && k <= |s|
    ensures ValueOf(s[..k]) <= ValueOf(s)
    decreases |s|
  {
    if k < |s| {
      PrefixSmaller(s[..|s| - 1], k);
      assert s[..|s| - 1][..k] == s[..k];
    } else {
      assert s[..k] == s;
    }
  }

  method ParseFileSize(bytes: seq<byte>) returns (r: Result<u32>)
    ensures r == SizeOf(bytes)
  {
    if bytes == [] {
      return Ok(0);
    }
    var result: u32 := 0;
    var i := 0;
    while i < |bytes|
      invariant 0 <= i <= |bytes|
      invariant AllDigits(bytes[..i]) && result == ValueOf(bytes[..i])
    {
      if !(0x30 <= bytes[i] <= 0x39) {
        return Err(MalformedFileSize);
      }
      var digit := bytes[i] - 0x30;
      assert bytes[..i + 1][..i] == bytes[..i];
      assert ValueOf(bytes[..i + 1]) == 10 * result + digit;
      if 10 * result + digit >= 0x1_0000_0000 {
        if AllDigits(bytes) {
          PrefixSmaller(bytes, i + 1);
        }
        return Err(MalformedFileSize);
      }
      result := 10 * result + digit;
      i := i + 1;
    }
    assert bytes[..i] == bytes;
    return Ok(result);
  }

  // ---------------------------------------------------------------------
  // Fields of the metadata
  // ---------------------------------------------------------------------

  /** The bytes before the first separator, all of them if there is none. */
  function Field(s: seq<byte>, sep: byte): (f: seq<byte>)
    ensures |f| <= |s| && f == s[..|f|] && sep !in f
    ensures |f| < |s| ==> s[|f|] == sep
  {
    if s == [] || s[0] == sep then [] else [s[0]] + Field(s[1..], sep)
  }

  /** The bytes after the first separator, if there is one. */
  function AfterField(s: seq<byte>, sep: byte): Option<seq<byte>>
  {
    var n := |Field(s, sep)|;
    if n < |s| then Some(s[n + 1..]) else None
  }

  lemma FieldIs(f: seq<byte>, sep: byte, rest: seq<byte>)
    requires sep !in f && (rest != [] ==> rest[0] == sep)
    ensures Field(f + rest, sep) == f
    ensures AfterField(f + rest, sep) == if rest == [] then None else Some(rest[1..])
  {
    hide Field;
    FieldStops(f, sep, rest);
    if rest != [] {
      assert (f + rest)[|f| + 1..] == rest[1..];
    }
  }

  lemma {:induction false} FieldStops(f: seq<byte>, sep: byte, rest: seq<byte>)
    requires sep !in f && (rest != [] ==> rest[0] == sep)
    ensures Field(f + rest, sep) == f
    decreases |f|
  {
    if f == [] {
      assert f + rest == rest;
    } else {
      assert (f + rest)[1..] == f[1..] + rest;
      FieldStops(f[1..], sep, rest);
      assert f == [f[0]] + f[1..];
    }
  }

  /** The size field of what follows the name. */
  function SizeField(s: seq<byte>): seq<byte>
  {
    Field(Field(s, NUL), SPACE)
  }

  // ---------------------------------------------------------------------
  // Printing
  // ---------------------------------------------------------------------

  function Metadata(name: seq<byte>, size: u32): seq<byte>
  {
    name + [NUL] + Decimal(size) + [NUL]
  }

  lemma MetadataSize(name: seq<byte>, size: u32)
    ensures |Metadata(name, size)| <= |name| + 12
  {
    assert Pow10(10) == 100_0000_0000 by {
      assert Pow10(4) == 10000;
      assert Pow10(7) == 1000 * Pow10(4);
      assert Pow10(10) == 1000 * Pow10(7);
    }
    DecimalLength(size, 10);
  }

  function EncZfile(name: seq<byte>, size: u32): seq<byte>
  {
    EncHeader(ZFILE_HEADER) + EncSubpacket(ZBIN32, ZCRCW, Metadata(name, size))
  }

  /** Stages the metadata in the caller's buffer and writes the ZFILE frame. */
  method WriteZfile(port: Buffer, buf: Buffer, name: seq<byte>, size: u32) returns (r: Result<bool>)
    requires port.Valid() && buf.Valid() && port != buf && port.bytes != buf.bytes
    modifies port`len, port.bytes, buf`len, buf.bytes
    ensures port.Valid() && buf.Valid()
    ensures |Metadata(name, size)| > buf.capacity ==>
              r == Err(OutOfMemory) && port.Contents() == old(port.Contents())
    ensures |Metadata(name, size)| <= buf.capacity ==> buf.Contents() == Metadata(name, size)
    ensures |Metadata(name, size)| <= buf.capacity ==>
              r.Ok? && Took(old(port.Contents()), port.capacity, EncZfile(name, size), port.Contents(), r.value)
  {
    hide Took, EncZfile, Metadata;
    var ok := StageMetadata(buf, name, size);
    if !ok {
      return Err(OutOfMemory);
    }
    r := WriteZfileFrame(port, buf, name, size);
  }

  method StageMetadata(buf: Buffer, name: seq<byte>, size: u32) returns (ok: bool)
    requires buf.Valid()
    modifies buf`len, buf.bytes
    ensures buf.Valid() && ok == (|Metadata(name, size)| <= buf.capacity)
    ensures ok ==> buf.Contents() == Metadata(name, size)
  {
    hide Decimal;
    ghost var named, sized := name + [NUL], name + [NUL] + Decimal(size);
    assert |Metadata(name, size)| == |sized| + 1;
    ok := StageName(buf, name);
    if !ok {
      return;
    }
    ok := buf.ExtendFromSlice(Decimal(size));
    if !ok {
      return;
    }
    assert buf.Contents() == sized;
    ok := buf.Push(NUL);
  }

  method StageName(buf: Buffer, name: seq<byte>) returns (ok: bool)
    requires buf.Valid()
    modifies buf`len, buf.bytes
    ensures buf.Valid() && ok == (|name| + 1 <= buf.capacity)
    ensures ok ==> buf.Contents() == name + [NUL]
  {
    buf.Clear();
    ok := buf.ExtendFromSlice(name);
    if !ok {
      return;
    }
    assert buf.Contents() == name;
    ok := buf.Push(NUL);
  }

  method WriteZfileFrame(port: Buffer, buf: Buffer, ghost name: seq<byte>, ghost size: u32) returns (r: Result<bool>)
    requires port.Valid() && buf.Valid() && port != buf && port.bytes != buf.bytes
    requires buf.Contents() == Metadata(name, size)
    modifies port`len, port.bytes
    ensures port.Valid() && buf.Valid() && buf.Contents() == old(buf.Contents())
    ensures r.Ok? && Took(old(port.Contents()), port.capacity, EncZfile(name, size), port.Contents(), r.value)
  {
    hide Took, EncHeader, EncSubpacket, Metadata;
    ghost var before, cap := port.Contents(), port.capacity;
    ghost var head, body := EncHeader(ZFILE_HEADER), EncSubpacket(ZBIN32, ZCRCW, Metadata(name, size));
    var all := WriteHeader(port, Header(ZBIN32, ZFILE, [0, 0, 0, 0]));
    ghost var mid := port.Contents();
    if !all {
      TookShort(before, cap, head, mid, body);
      return Ok(false);
    }
    r := WriteSubpacket(port, ZBIN32, ZCRCW, buf.bytes[..buf.len]);
    TookThen(before, cap, head, mid, body, port.Contents(), r.value);
  }

  // ---------------------------------------------------------------------
  // Parsing
  // ---------------------------------------------------------------------

  datatype Info = Info(name: seq<byte>, size: u32)

  /** The name and size in a ZFILE payload. */
  function ParseInfo(payload: seq<byte>): Result<Info>
  {
    var name := Field(payload, NUL);
    if name == [] then Err(MalformedFileName)
    else if |name| > NAME_CAP then Err(OutOfMemory)
    else
      match AfterField(payload, NUL)
      case None => Ok(Info(name, 0))
      case Some(rest) =>
        var size :- SizeOf(SizeField(rest));
        Ok(Info(name, size))
  }

  /** ZFILE metadata round trip (section 13 of the ZMODEM specification), with or
      without the fields that other senders append after a space. */
  lemma MetadataRoundTrip(name: seq<byte>, size: u32, extra: seq<byte>)
    requires name != [] && NUL !in name && |name| <= NAME_CAP
    requires extra != [] ==> extra[0] == SPACE || extra[0] == NUL
    ensures ParseInfo(name + [NUL] + Decimal(size) + extra) == Ok(Info(name, size))
  {
    hide Field, Decimal, SizeField, SizeOf;
    var tail := Decimal(size) + extra;
    assert name + [NUL] + Decimal(size) + extra == name + ([NUL] + tail);
    FieldIs(name, NUL, [NUL] + tail);
    assert ([NUL] + tail)[1..] == tail;
    SizeFieldIs(Decimal(size), extra);
    DecimalRead(size);
  }

  lemma DecimalRead(size: u32)
    ensures SizeOf(Decimal(size)) == Ok(size)
  {
    hide Decimal, ValueOf;
    DecimalValue(size);
  }

  /** Digits end at a space, a NUL or the end of the payload. */
  lemma SizeFieldIs(digits: seq<byte>, extra: seq<byte>)
    requires AllDigits(digits)
    requires extra != [] ==> extra[0] == SPACE || extra[0] == NUL
    ensures SizeField(digits + extra) == digits
  {
    hide Field;
    var kept := Field(extra, NUL);
    var cut := extra[|kept|..];
    assert extra == kept + cut;
    assert digits + extra == (digits + kept) + cut;
    assert NUL !in digits && SPACE !in digits;
    FieldIs(digits + kept, NUL, cut);
    FieldIs(digits, SPACE, kept);
  }

  lemma WrittenMetadataParses(name: seq<byte>, size: u32)
    requires name != [] && NUL !in name && |name| <= NAME_CAP
    ensures ParseInfo(Metadata(name, size)) == Ok(Info(name, size))
  {
    hide ParseInfo, Decimal;
    MetadataRoundTrip(name, size, [NUL]);
  }
}
