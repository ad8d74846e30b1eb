/** What firmware/buffer.c promises, free of slots and indices: a bounded FIFO
    of frames on their way to the CAN controller, and a pair of receive
    buffers of which one is being filled while the other belongs to EP2. */
module BufferSpec {
  import opened Wire
  import opened Endpoint

  /** `queue` holds the frames between EP1 and mcp2515_tx, `filling` those
      between mcp2515_rx and the next report. */
  datatype Buffer = Buffer(queue: seq<Packet>, ep1: Ep, filling: seq<Packet>, ep2: Ep, update: bool)

  const EP1_SIZE := 32
  const EP2_SIZE := 64

  const INITIAL_BUFFER: Buffer :=
    Buffer([], Ep(Idle, true, EP1_SIZE, false), [], Ep(Idle, true, EP2_SIZE, false), false)

  /** buffer_tx_prepare */
  function TxPrepare(b: Buffer): Buffer {
    if |b.queue| < TX_SLOTS && b.ep1.xfer.Idle? then b.(ep1 := Recv(b.ep1, FRAME_SIZE, BufferTxDone)) else b
  }

  /** buffer_tx_done, with the frame that completed the transfer */
  function TxDone(b: Buffer, frame: Packet): Buffer {
    TxPrepare(b.(queue := b.queue + [frame], update := true))
  }

  /** The EP1 interrupt: result, and whether the endpoint was stalled. */
  function Ep1Interrupt(b: Buffer, packet: seq<byte>): (Buffer, bool) {
    match OutPacket(b.ep1, packet)
    case Stall(ep) => (b.(ep1 := ep), true)
    case Stored(ep) => (b.(ep1 := ep), false)
    case Complete(ep, data, _) =>
      if |data| == FRAME_SIZE then (TxDone(b.(ep1 := ep), data), false) else (b.(ep1 := ep), false)
  }

  predicate CanSend(b: Buffer, txbufEmpty: bool) {
    |b.queue| > 0 && txbufEmpty
  }

  /** The second critical section of buffer_tx_process, when it does load the
      head of the queue into the controller. */
  function TxSend(b: Buffer): Buffer
    requires |b.queue| > 0
  {
    b.(queue := b.queue[1..], update := true)
  }

  predicate CanTake(b: Buffer) {
    |b.filling| < RX_MAX_FRAMES
  }

  /** mcp2515_rx or mcp2515_err into the next free frame of the report. */
  function RxTake(b: Buffer, frame: Packet): Buffer
    requires CanTake(b)
  {
    b.(filling := b.filling + [frame])
  }

  predicate CanReport(b: Buffer) {
    b.ep2.xfer.Idle? && (b.update || |b.filling| > 0)
  }

  function FreeSlots(b: Buffer): int {
    TX_SLOTS - |b.queue|
  }

  /** The last critical section of buffer_rx_process, when it does hand the
      filled buffer to EP2. */
  function RxReport(b: Buffer): Buffer
    requires |b.queue| <= TX_SLOTS && |b.filling| <= RX_MAX_FRAMES
  {
    b.(ep2 := Send(b.ep2, ReportBytes(FreeSlots(b), b.filling), BufferRxDone), filling := [], update := false)
  }

  /** The EP2 interrupt: result and the packet loaded into the FIFO, if any.
      buffer_rx_done clears a buffer that is no longer visible here. */
  function Ep2Interrupt(b: Buffer): (Buffer, seq<seq<byte>>) {
    match InPacket(b.ep2)
    case Masked(_) => (b, [])
    case More(ep, packet) => (b.(ep2 := ep), [packet])
    case Last(ep, packet, _) => (b.(ep2 := ep), [packet])
  }

  /** buffer_reset */
  function Reset(b: Buffer): Buffer {
    b.(queue := [], filling := [], update := false)
  }

  /** After a reset nothing is sent or reported until a frame arrives; the first
      report then holds that frame alone and 32 free slots. Transfers in
      progress go on. */
  lemma AfterReset(b: Buffer, txbufEmpty: bool, frame: Packet)
    ensures var t := Reset(b);
            && t.ep1 == b.ep1 && t.ep2 == b.ep2
            && !CanSend(t, txbufEmpty) && !CanReport(t) && CanTake(t)
            && (b.ep2.xfer.Idle? ==>
                  CanReport(RxTake(t, frame)) &&
                  RxReport(RxTake(t, frame)).ep2.xfer == Sending([1, 0, 0, 32] + frame, BufferRxDone))
  {
    var frames := Reset(b).filling + [frame];
    assert frames[0] == frame && frames[1..] == [];
    assert Concat(frames) == frame;
    assert ReportBytes(32, frames) == [1, 0, 0, 32] + frame;
  }
}
