/** The four bytes of a ZRINIT: what a receiver puts into them and what a sender reads out
    of them. */
module Negotiation {
  import opened Primitives
  import opened HeaderCodec
  import Tx = SenderSpec
  import Rx = ReceiverSpec

  /** The receiver's buffer length, low byte first, and CANOVIO, on the bytes of a ZRINIT. */
  predicate Says(flags: Flags, bufferLen: int, overlap: bool)
  {
    var low: int, high: int, caps: int := flags[0], flags[1], flags[3];
    low + 0x100 * high == bufferLen && (caps / 2 % 2 == 1 <==> overlap)
  }

  /** The header a receiver queues: hex, its buffer length and CANOVIO as it was set up,
      CANFDX and CANFC32, and nothing else. */
  lemma Advertises(bufferLen: nat, overlapped: bool)
    requires bufferLen < 0x1_0000
    ensures
      var h := Rx.ZrinitHeader(bufferLen, overlapped);
      && h.encoding == ZHEX && h.frame == ZRINIT && Says(h.flags, bufferLen, overlapped)
      && h.flags[3] % 2 == 1 && h.flags[3] / 0x20 == 1 && h.flags[3] / 4 % 8 == 0 && h.flags[2] == 0
    ensures Tx.BufferLenOf(Rx.ZrinitHeader(bufferLen, overlapped)) == bufferLen
    ensures Tx.OverlapOf(Rx.ZrinitHeader(bufferLen, overlapped)) == overlapped
  {
    assert bufferLen / 0x100 % 0x100 == bufferLen / 0x100;
    assert bufferLen == bufferLen % 0x100 + 0x100 * (bufferLen / 0x100);
  }

  /** What is read out of a ZRINIT is what it says. */
  lemma ReadsWhatItSays(h: Header)
    ensures Says(h.flags, Tx.BufferLenOf(h), Tx.OverlapOf(h))
  {
  }
}
