/** Headers on the sender's wire: feeding the bytes of a header, in any chunks, is
    the same as one step of the sender on that header. */
module SenderFrames {
  import opened Primitives
  import opened HeaderCodec
  import opened HeaderReading
  import opened SenderSpec

  /** Bytes that only move the reader. */
  lemma {:induction false} ReaderFed(t: TxState, wire: seq<byte>)
    requires !t.Blocked()
    requires ReadChunk(t.reader, wire).outcome.Nothing?
    ensures Feed(t, wire) == Fed.Fed(t.(reader := ReadChunk(t.reader, wire).reader))
    decreases |wire|
  {
    hide ReadStep;
    if wire == [] {
      assert t.(reader := t.reader) == t;
    } else {
      var s := ReadStep(t.reader, wire[0]);
      var t' := t.(reader := s.reader);
      assert TakeByte(t, wire[0]) == Done(t');
      ReaderFed(t', wire[1..]);
    }
  }

  lemma {:induction false} OutcomeFed(t: TxState, wire: seq<byte>)
    requires !t.Blocked() && wire != []
    requires !ReadChunk(t.reader, wire).outcome.Nothing? && ReadChunk(t.reader, wire).taken == |wire|
    ensures Feed(t, wire) ==
            FedOf(OnOutcome(t.(reader := ReadChunk(t.reader, wire).reader), ReadChunk(t.reader, wire).outcome))
    decreases |wire|
  {
    hide ReadStep, OnOutcome;
    var s := ReadStep(t.reader, wire[0]);
    var t' := t.(reader := s.reader);
    assert TakeByte(t, wire[0]) == OnOutcome(t', s.outcome);
    if s.outcome.Nothing? {
      NothingHappens(t');
      assert wire[1..] != [];
      OutcomeFed(t', wire[1..]);
      assert t'.(reader := ReadChunk(t'.reader, wire[1..]).reader) == t.(reader := ReadChunk(t.reader, wire).reader);
    } else {
      assert wire[1..] == [];
    }
  }

  lemma NothingHappens(t: TxState)
    ensures OnOutcome(t, Nothing) == Done(t)
  {
  }

  /** The bytes of a header, wherever the reader was seeking, are that header. */
  lemma HeaderFed(t: TxState, h: Header)
    requires !t.Blocked() && t.reader.scan.Seeking?
    ensures Feed(t, HeaderCore(h)) == FedOf(HandleHeader(t.(reader := FRESH), h))
  {
    hide ReadChunk, HeaderCore, HandleHeader, Feed;
    HeaderSize(h);
    HeaderRead(t.reader, h);
    OutcomeFed(t, HeaderCore(h));
  }

  /** A call of the header reader, seen on the sender. */
  lemma HeaderTurn(t: TxState, rest: seq<byte>)
    requires !t.Blocked()
    ensures
      var a := ReadChunk(t.reader, rest);
      && (rest != [] ==> a.taken > 0)
      && Feed(t, rest[..a.taken]) == FedOf(OnOutcome(t.(reader := a.reader), a.outcome))
  {
    hide ReadChunk, Feed, OnOutcome;
    var a := ReadChunk(t.reader, rest);
    if a.outcome.Nothing? {
      assert rest[..a.taken] == rest;
      ReaderFed(t, rest);
      NothingHappens(t.(reader := a.reader));
    } else {
      ChunkAlone(t.reader, rest);
      OutcomeFed(t, rest[..a.taken]);
    }
  }

  lemma NothingFed(t: TxState, wire: seq<byte>, at: nat)
    requires at <= |wire|
    ensures Feed(t, wire[at..at]) == Fed.Fed(t)
  {
  }

  /** Turns follow one another. */
  lemma TurnsJoin(t: TxState, wire: seq<byte>, a: nat, b: nat, c: nat)
    requires a <= b <= c <= |wire| && Feed(t, wire[a..b]).Fed?
    ensures Feed(t, wire[a..c]) == Feed(Feed(t, wire[a..b]).tx, wire[b..c])
  {
    hide Feed;
    FeedConcat(t, wire[a..b], wire[b..c]);
    assert wire[a..b] + wire[b..c] == wire[a..c];
  }

  /** A run that breaks early breaks as a whole. */
  lemma {:induction false} BrokenEarly(t: TxState, wire: seq<byte>, n: nat)
    requires n <= |wire| && Feed(t, wire[..n]).Broken?
    ensures Feed(t, wire) == Feed(t, wire[..n])
    decreases |wire|
  {
    hide TakeByte;
    if n > 0 && !t.Blocked() {
      assert wire[..n][1..] == wire[1..][..n - 1];
      if TakeByte(t, wire[0]).Done? {
        BrokenEarly(TakeByte(t, wire[0]).tx, wire[1..], n - 1);
      }
    }
  }
}
