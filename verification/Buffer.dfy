/** The fixed-capacity byte buffer behind every staged stretch of data, and the
    sink that the codec writes through. */
module Buffers {
  import opened Primitives
  import opened Zdle

  class Buffer {
    const capacity: nat
    const bytes: array<byte>
    var len: nat

    ghost predicate Valid()
      reads this
    {
      bytes.Length == capacity && len <= capacity
    }

    ghost function Contents(): (s: seq<byte>)
      requires Valid()
      reads this, bytes
      ensures |s| == len <= capacity
    {
      bytes[..len]
    }

    /** A buffer of this capacity with exactly these bytes staged. */
    ghost predicate Holds(cap: nat, s: seq<byte>): (b: bool)
      reads this, bytes
      ensures b ==> Valid() && capacity == cap
    {
      Valid() && capacity == cap && Contents() == s
    }

    constructor (capacity: nat)
      ensures Valid() && fresh(bytes) && this.capacity == capacity && Contents() == [] && Holds(capacity, [])
    {
      this.capacity := capacity;
      bytes := new byte[capacity](i => 0);
      len := 0;
    }

    method Clear()
      requires Valid()
      modifies this`len
      ensures Valid() && Contents() == [] && Holds(capacity, [])
    {
      len := 0;
    }

    /** Appends one byte, or reports that the capacity would be exceeded. */
    method Push(value: byte) returns (ok: bool)
      requires Valid()
      modifies this`len, bytes
      ensures Valid() && ok == (|old(Contents())| < capacity)
      ensures Contents() == if ok then old(Contents()) + [value] else old(Contents())
      ensures Holds(capacity, if ok then old(Contents()) + [value] else old(Contents()))
    {
      if len < capacity {
        bytes[len] := value;
        len := len + 1;
        return true;
      } else {
        return false;
      }
    }

    /** Appends the whole slice or nothing of it. */
    method ExtendFromSlice(slice: seq<byte>) returns (ok: bool)
      requires Valid()
      modifies this`len, bytes
      ensures Valid() && ok == (|old(Contents())| + |slice| <= capacity)
      ensures Contents() == if ok then old(Contents()) + slice else old(Contents())
      ensures Holds(capacity, if ok then old(Contents()) + slice else old(Contents()))
    {
      if len + |slice| > capacity {
        return false;
      }
      var end := len + |slice|;
      ghost var before := bytes[..len];
      forall i | 0 <= i < |slice| {
        bytes[len + i] := slice[i];
      }
      assert bytes[..end] == before + slice;
      len := end;
      return true;
    }

    /** Drops what is there and takes the whole slice instead, or nothing of it. */
    method Replace(slice: seq<byte>) returns (ok: bool)
      requires Valid()
      modifies this`len, bytes
      ensures Valid() && ok == (|slice| <= capacity) && Holds(capacity, if ok then slice else [])
    {
      hide Holds;
      Clear();
      ok := ExtendFromSlice(slice);
      assert [] + slice == slice;
    }
  }

  // ---------------------------------------------------------------------
  // Writing through a sink that may fill up
  // ---------------------------------------------------------------------

  /** The sink takes as much of `e` as fits and says whether all of it did. */
  ghost predicate Took(before: seq<byte>, capacity: nat, e: seq<byte>, after: seq<byte>, all: bool)
  {
    && |before| <= capacity
    && all == (|before| + |e| <= capacity)
    && after == before + e[..Min(|e|, capacity - |before|)]
  }

  lemma TookThen(before: seq<byte>, capacity: nat, a: seq<byte>, mid: seq<byte>, b: seq<byte>, after: seq<byte>, all: bool)
    requires Took(before, capacity, a, mid, true) && Took(mid, capacity, b, after, all)
    ensures Took(before, capacity, a + b, after, all)
  {
    var n := Min(|b|, capacity - |mid|);
    assert a[..|a|] == a;
    assert (a + b)[..|a| + n] == a + b[..n];
    assert before + (a + b[..n]) == (before + a) + b[..n];
  }

  lemma TookShort(before: seq<byte>, capacity: nat, a: seq<byte>, after: seq<byte>, b: seq<byte>)
    requires Took(before, capacity, a, after, false)
    ensures Took(before, capacity, a + b, after, false)
  {
    var n := capacity - |before|;
    assert (a + b)[..n] == a[..n];
  }

  /** Writes one byte through the sink; false is the source's `Ok(None)`. */
  method WriteByte(port: Buffer, value: byte) returns (all: bool)
    requires port.Valid()
    modifies port`len, port.bytes
    ensures port.Valid() && Took(old(port.Contents()), port.capacity, [value], port.Contents(), all)
  {
    if port.len == port.capacity {
      assert [value][..0] == [];
      return false;
    }
    all := port.Push(value);
    assert [value][..1] == [value];
  }

  method WriteByteEscaped(port: Buffer, value: byte) returns (all: bool)
    requires port.Valid()
    modifies port`len, port.bytes
    ensures port.Valid() && Took(old(port.Contents()), port.capacity, EscByte(value), port.Contents(), all)
  {
    ghost var before := port.Contents();
    EscapeTableMeaning(value);
    var escaped := EscapeTable(value);
    if escaped != value {
      all := WriteByte(port, ZDLE);
      ghost var mid := port.Contents();
      if !all {
        TookShort(before, port.capacity, [ZDLE], mid, [escaped]);
        return;
      }
      all := WriteByte(port, escaped);
      TookThen(before, port.capacity, [ZDLE], mid, [escaped], port.Contents(), all);
    } else {
      all := WriteByte(port, escaped);
    }
  }

  method WriteSliceEscaped(port: Buffer, data: seq<byte>) returns (all: bool)
    requires port.Valid()
    modifies port`len, port.bytes
    ensures port.Valid() && Took(old(port.Contents()), port.capacity, Esc(data), port.Contents(), all)
  {
    ghost var before := port.Contents();
    assert Esc(data[..0])[..0] == [];
    var i := 0;
    while i < |data|
      invariant 0 <= i <= |data| && port.Valid()
      invariant Took(before, port.capacity, Esc(data[..i]), port.Contents(), true)
    {
      ghost var mid := port.Contents();
      all := WriteByteEscaped(port, data[i]);
      EscSnoc(data, i);
      if !all {
        assert data == data[..i + 1] + data[i + 1..];
        EscConcat(data[..i + 1], data[i + 1..]);
        TookAfter(before, port.capacity, Esc(data[..i]), mid, EscByte(data[i]), port.Contents(), Esc(data[i + 1..]));
        return;
      }
      TookThen(before, port.capacity, Esc(data[..i]), mid, EscByte(data[i]), port.Contents(), true);
      i := i + 1;
    }
    assert data[..i] == data;
    return true;
  }

  lemma EscSnoc(data: seq<byte>, i: nat)
    requires i < |data|
    ensures Esc(data[..i + 1]) == Esc(data[..i]) + EscByte(data[i])
  {
    assert data[..i + 1] == data[..i] + [data[i]];
    EscConcat(data[..i], [data[i]]);
    assert Esc([data[i]]) == EscByte(data[i]);
  }

  lemma TookAfter(
    before: seq<byte>, capacity: nat, a: seq<byte>, mid: seq<byte>, b: seq<byte>, after: seq<byte>, c: seq<byte>)
    requires Took(before, capacity, a, mid, true) && Took(mid, capacity, b, after, false)
    ensures Took(before, capacity, (a + b) + c, after, false)
  {
    TookThen(before, capacity, a, mid, b, after, false);
    TookShort(before, capacity, a + b, after, c);
  }
}
