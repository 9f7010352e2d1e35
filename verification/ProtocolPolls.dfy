/** The callers of the joined system do what the polls ask for, in the order in which the
    polls ask for it. */
module ProtocolPolls {
  import opened Primitives
  import opened HeaderCodec
  import opened Protocol
  import Tx = SenderSpec
  import Rx = ReceiverSpec
  import TxMachine = SenderMachine
  import RxMachine = ReceiverMachine

  /** The receiver's caller looks at an event when there is one; then writes out wire bytes
      when there are some; then persists file bytes, as many at a time as it likes; and is
      otherwise asked nothing, which is when it decides on a file. */
  lemma RxDoesAsPolled(y: Sys, n: nat, offset: u32)
    requires Rx.Inv(y.r)
    ensures
      var a := RxMachine.NextAction(y.r);
      && (Enabled(y, RxEvent) <==> a.FileStarted? || a.Happened?)
      && (Enabled(y, RxFlush) <==> a.WriteWire?)
      && (Enabled(y, RxWrite(n)) <==> a.WriteFile? && 1 <= n <= |a.bytes|)
      && (a.WriteWire? ==> a.bytes == EncHeader(y.r.out.value)[y.r.sent..])
      && (a.WriteFile? ==> a.bytes == y.r.buf[y.r.written..])
      && (Enabled(y, RxAccept(offset)) <==> a.Idle? && y.r.phase == Rx.FileAcceptPending)
      && (Enabled(y, RxSkip) <==> a.Idle? && y.r.phase == Rx.FileAcceptPending)
  {
    hide EncHeader, Rx.Checked;
  }

  /** An event is told with what belongs to it. */
  lemma RxEventTold(r: Rx.RxState)
    requires r.events != []
    ensures r.events[0] == Rx.FileStart ==> RxMachine.NextAction(r) == RxMachine.FileStarted(r.fileName, r.fileSize)
    ensures r.events[0] != Rx.FileStart ==> RxMachine.NextAction(r) == RxMachine.Happened(r.events[0])
    ensures Rx.PopEvent(r) == r.(events := r.events[1..])
  {
  }

  /** The sender's caller looks at the event when there is one; then writes out wire bytes
      when there are some; then reads what is asked for, or less. */
  lemma TxDoesAsPolled(y: Sys, n: nat)
    requires Tx.Inv(y.s) && 1 <= y.next <= |y.files|
    ensures
      var a := TxMachine.NextAction(y.s);
      && (Enabled(y, TxEvent) <==> a.Happened?)
      && (Enabled(y, TxFlush) <==> a.WriteWire?)
      && (Enabled(y, TxRead(n)) <==> a.ReadFile? && 1 <= n <= a.maxLen)
      && (a.Happened? ==> y.s.event == Some(a.event))
      && (a.WriteWire? ==> a.bytes == Tx.WireOf(y.s.out)[y.s.sent..])
      && (a.ReadFile? ==> y.s.request == Some(Tx.FileRequest(a.offset, a.maxLen)))
  {
    hide Tx.WireOf, Tx.DivCeil;
  }
}
