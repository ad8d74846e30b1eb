/** The layout of firmware/buffer.c's static memory, and how the lists of
    BufferSpec are read out of it. */
module BufferMemory {
  import opened Wire

  const RX_STRUCT := HEADER_SIZE + RX_MAX_FRAMES * FRAME_SIZE
  const TX_MEMORY := TX_SLOTS * FRAME_SIZE

  // ----- transmit ring --------------------------------------------------------

  function Slot(mem: seq<byte>, i: nat): Packet
    requires |mem| == TX_MEMORY && i < TX_SLOTS
  {
    mem[FRAME_SIZE * i..FRAME_SIZE * i + FRAME_SIZE]
  }

  /** The k-th slot behind the read index. */
  function Live(r: nat, k: nat): (i: nat)
    requires r < TX_SLOTS && k <= TX_SLOTS
    ensures i < TX_SLOTS
  {
    (r + k) % TX_SLOTS
  }

  /** tx_buf_w, tx_buf_r and tx_buf_count, and how the code moves them. */
  datatype Indices = Indices(w: nat, r: nat, count: int)

  function Push(i: Indices): Indices {
    i.(w := (i.w + 1) % TX_SLOTS, count := i.count + 1)
  }

  function Pop(i: Indices): Indices {
    i.(r := (i.r + 1) % TX_SLOTS, count := i.count - 1)
  }

  function Rewind(i: Indices): Indices {
    i.(r := i.w, count := 0)
  }

  function Queue(mem: seq<byte>, r: nat, count: nat): (q: seq<Packet>)
    requires |mem| == TX_MEMORY && r < TX_SLOTS && count <= TX_SLOTS
    ensures |q| == count
  {
    seq(count, k requires 0 <= k < count => Slot(mem, Live(r, k)))
  }

  lemma QueueSnoc(mem: seq<byte>, r: nat, count: nat)
    requires |mem| == TX_MEMORY && r < TX_SLOTS && count < TX_SLOTS
    ensures Queue(mem, r, count + 1) == Queue(mem, r, count) + [Slot(mem, Live(r, count))]
  {
  }

  lemma QueueTail(mem: seq<byte>, r: nat, count: nat)
    requires |mem| == TX_MEMORY && r < TX_SLOTS && 0 < count <= TX_SLOTS
    ensures Queue(mem, Live(r, 1), count - 1) == Queue(mem, r, count)[1..]
    ensures Queue(mem, r, count)[0] == Slot(mem, r)
    ensures Live(Live(r, 1), count - 1) == Live(r, count)
  {
    forall k | 0 <= k < count - 1
      ensures Queue(mem, Live(r, 1), count - 1)[k] == Queue(mem, r, count)[1..][k]
    {
      LiveShift(r, k);
    }
    LiveShift(r, count - 1);
  }

  lemma LiveShift(r: nat, k: nat)
    requires r < TX_SLOTS && k < TX_SLOTS
    ensures Live(Live(r, 1), k) == Live(r, k + 1)
  {
  }

  /** Writing the slot at the write index leaves the live window alone. */
  lemma QueueFrame(mem: seq<byte>, mem': seq<byte>, r: nat, count: nat)
    requires |mem| == |mem'| == TX_MEMORY && r < TX_SLOTS && count < TX_SLOTS
    requires var w := Live(r, count);
             forall k | 0 <= k < TX_MEMORY && !(FRAME_SIZE * w <= k < FRAME_SIZE * w + FRAME_SIZE) :: mem'[k] == mem[k]
    ensures Queue(mem', r, count) == Queue(mem, r, count)
  {
    forall k | 0 <= k < count
      ensures Slot(mem', Live(r, k)) == Slot(mem, Live(r, k))
    {
      assert Live(r, k) != Live(r, count);
    }
  }

  // ----- receive double buffer ------------------------------------------------

  function FrameCount(mem: seq<byte>, slot: nat): int
    requires |mem| == 2 * RX_STRUCT && slot < 2
  {
    mem[RX_STRUCT * slot] as int
  }

  function FrameAt(slot: nat, k: nat): nat {
    RX_STRUCT * slot + HEADER_SIZE + FRAME_SIZE * k
  }

  function RxFrame(mem: seq<byte>, slot: nat, k: nat): Packet
    requires |mem| == 2 * RX_STRUCT && slot < 2 && k < RX_MAX_FRAMES
  {
    mem[FrameAt(slot, k)..FrameAt(slot, k) + FRAME_SIZE]
  }

  /** The first n frames of a report buffer. */
  function Frames(mem: seq<byte>, slot: nat, n: nat): (fs: seq<Packet>)
    requires |mem| == 2 * RX_STRUCT && slot < 2 && n <= RX_MAX_FRAMES
    ensures |fs| == n
  {
    seq(n, k requires 0 <= k < n => RxFrame(mem, slot, k))
  }

  function Filling(mem: seq<byte>, slot: nat): seq<Packet>
    requires |mem| == 2 * RX_STRUCT && slot < 2 && FrameCount(mem, slot) <= RX_MAX_FRAMES
  {
    Frames(mem, slot, FrameCount(mem, slot))
  }

  /** Frames do not depend on anything before or behind them. */
  lemma FramesFrame(mem: seq<byte>, mem': seq<byte>, slot: nat, n: nat)
    requires |mem| == |mem'| == 2 * RX_STRUCT && slot < 2 && n <= RX_MAX_FRAMES
    requires forall k | FrameAt(slot, 0) <= k < FrameAt(slot, n) :: mem'[k] == mem[k]
    ensures Frames(mem', slot, n) == Frames(mem, slot, n)
  {
    forall i | 0 <= i < n
      ensures RxFrame(mem', slot, i) == RxFrame(mem, slot, i)
    {
    }
  }

  lemma FillingSnoc(mem: seq<byte>, mem': seq<byte>, slot: nat, frame: Packet)
    requires |mem| == |mem'| == 2 * RX_STRUCT && slot < 2 && FrameCount(mem, slot) < RX_MAX_FRAMES
    requires mem'[RX_STRUCT * slot] == mem[RX_STRUCT * slot] + 1
    requires RxFrame(mem', slot, FrameCount(mem, slot)) == frame
    requires forall k | FrameAt(slot, 0) <= k < FrameAt(slot, FrameCount(mem, slot)) :: mem'[k] == mem[k]
    ensures FrameCount(mem', slot) == FrameCount(mem, slot) + 1
    ensures Filling(mem', slot) == Filling(mem, slot) + [frame]
  {
    var n := FrameCount(mem, slot);
    assert mem[RX_STRUCT * slot] as int < 4;
    assert (mem[RX_STRUCT * slot] + 1) as int == n + 1;
    FramesFrame(mem, mem', slot, n);
    assert Frames(mem', slot, n + 1) == Frames(mem', slot, n) + [RxFrame(mem', slot, n)];
  }

  predicate Zeroed(mem: seq<byte>, slot: nat)
    requires |mem| == 2 * RX_STRUCT && slot < 2
  {
    forall k | RX_STRUCT * slot <= k < RX_STRUCT * slot + RX_STRUCT :: mem[k] == 0
  }

  lemma ZeroedIsEmpty(mem: seq<byte>, slot: nat)
    requires |mem| == 2 * RX_STRUCT && slot < 2 && Zeroed(mem, slot)
    ensures FrameCount(mem, slot) == 0 && Filling(mem, slot) == []
  {
    assert mem[RX_STRUCT * slot] == 0;
  }

  lemma ByteBack(b: byte)
    ensures (b as int) as byte == b
  {
  }

  lemma FourBytes(mem: seq<byte>, at: nat)
    requires at + 4 <= |mem|
    ensures mem[at..at + 4] == [mem[at], mem[at + 1], mem[at + 2], mem[at + 3]]
  {
  }

  /** The bytes of a report are the memory of its buffer. */
  lemma ReportInMemory(mem: seq<byte>, slot: nat, free: nat)
    requires |mem| == 2 * RX_STRUCT && slot < 2 && FrameCount(mem, slot) <= RX_MAX_FRAMES && free <= TX_SLOTS
    requires mem[RX_STRUCT * slot + 1] == mem[RX_STRUCT * slot + 2] == 0 && mem[RX_STRUCT * slot + 3] == free as byte
    ensures var at, size := RX_STRUCT * slot, HEADER_SIZE + FRAME_SIZE * FrameCount(mem, slot);
            mem[at..at + size] == ReportBytes(free, Filling(mem, slot))
  {
    var n, at := FrameCount(mem, slot), RX_STRUCT * slot;
    FramesInMemory(mem, slot, n);
    ByteBack(mem[at]);
    FourBytes(mem, at);
    SliceInTwo(mem, at, at + HEADER_SIZE, FrameAt(slot, n));
  }

  lemma {:induction false} FramesInMemory(mem: seq<byte>, slot: nat, n: nat)
    requires |mem| == 2 * RX_STRUCT && slot < 2 && n <= RX_MAX_FRAMES
    ensures mem[FrameAt(slot, 0)..FrameAt(slot, n)] == Concat(Frames(mem, slot, n))
  {
    if n > 0 {
      FramesInMemory(mem, slot, n - 1);
      assert Frames(mem, slot, n) == Frames(mem, slot, n - 1) + [RxFrame(mem, slot, n - 1)];
      ConcatSnoc(Frames(mem, slot, n - 1), RxFrame(mem, slot, n - 1));
    }
  }
}

/** firmware/buffer.c over its own memory: a ring of 32 frame slots written by
    the EP1 interrupt and read by the main loop, and two report buffers
    written by the main loop and read, then cleared, by the EP2 interrupt. */
module CanBuffer {
  import opened Wire
  import opened Endpoint
  import M = BufferMemory
  import Spec = BufferSpec

  class CanBuffer {
    const txBuf: array<byte>
    const rxBuf: array<byte>
    const ep1: EndpointDescr
    const ep2: EndpointDescr
    var w: nat
    var r: nat
    var count: nat
    var rxSlot: nat
    var updateNeeded: bool

    constructor ()
      ensures Valid() && Abs() == Spec.INITIAL_BUFFER
      ensures fresh(txBuf) && fresh(rxBuf) && fresh(ep1) && fresh(ep2)
    {
      var tx := new byte[M.TX_MEMORY](_ => 0);
      var rx := new byte[2 * M.RX_STRUCT](_ => 0);
      txBuf, rxBuf := tx, rx;
      w, r, count, rxSlot, updateNeeded := 0, 0, 0, 0, false;
      ep1 := new EndpointDescr(true, Spec.EP1_SIZE, tx);
      ep2 := new EndpointDescr(true, Spec.EP2_SIZE, rx);
      new;
      M.ZeroedIsEmpty(rxBuf[..], 0);
    }

    ghost predicate Layout()
      reads this, ep1, ep2
    {
      txBuf.Length == M.TX_MEMORY && rxBuf.Length == 2 * M.RX_STRUCT && txBuf != rxBuf && ep1 != ep2 &&
      ep1.Valid() && ep2.Valid() && ep1.buf == txBuf && ep2.buf == rxBuf &&
      ep1.truncate && ep1.size == Spec.EP1_SIZE && ep2.truncate && ep2.size == Spec.EP2_SIZE &&
      r < TX_SLOTS && count <= TX_SLOTS && w == M.Live(r, count) && rxSlot < 2
    }

    /** A pending EP1 receive targets slot w, which is outside the live window
        because the ring is not full. */
    ghost predicate Ep1Target()
      reads this, ep1
    {
      ep1.state == EP_IDLE ||
      (ep1.state == EP_RX && ep1.start == FRAME_SIZE * w && ep1.end == FRAME_SIZE * w + FRAME_SIZE &&
       ep1.callback == BufferTxDone && count < TX_SLOTS)
    }

    /** The report buffer not being filled is owned by EP2 or all zero. */
    ghost predicate Ep2Owner()
      requires Layout()
      reads this, ep1, ep2, rxBuf
    {
      (ep2.state == EP_IDLE && M.Zeroed(rxBuf[..], 1 - rxSlot)) ||
      (ep2.state == EP_TX && ep2.start == ep2.pos == M.RX_STRUCT * (1 - rxSlot) &&
       ep2.end <= ep2.start + M.RX_STRUCT && ep2.callback == BufferRxDone)
    }

    /** The header of the buffer being filled: a count, and zeros. */
    ghost predicate Header()
      requires Layout()
      reads this, ep1, ep2, rxBuf
    {
      M.FrameCount(rxBuf[..], rxSlot) <= RX_MAX_FRAMES &&
      rxBuf[M.RX_STRUCT * rxSlot + 1] == rxBuf[M.RX_STRUCT * rxSlot + 2] == 0
    }

    ghost predicate Valid()
      reads this, ep1, ep2, rxBuf
    {
      Layout() && Ep1Target() && Ep2Owner() && Header()
    }

    ghost function Abs(): Spec.Buffer
      requires Valid()
      reads this, ep1, ep2, txBuf, rxBuf
    {
      Spec.Buffer(M.Queue(txBuf[..], r, count), ep1.Abs(), M.Filling(rxBuf[..], rxSlot), ep2.Abs(), updateNeeded)
    }

    ghost function At(): M.Indices
      reads this
    {
      M.Indices(w, r, count)
    }

    // ----- transmit ring ----------------------------------------------------

    /** buffer_tx_prepare */
    method TxPrepare()
      requires Valid()
      modifies ep1
      ensures Valid() && Abs() == Spec.TxPrepare(old(Abs()))
    {
      if count < TX_SLOTS && ep1.state == EP_IDLE {
        ep1.Io(EP_RX, txBuf, FRAME_SIZE * w, FRAME_SIZE, BufferTxDone);
      }
    }

    /** buffer_tx_done: the slot just filled joins the live window. */
    method TxDone()
      requires Valid() && count < TX_SLOTS && ep1.state == EP_IDLE
      modifies this`w, this`count, this`updateNeeded, ep1
      ensures Valid() && Abs() == Spec.TxDone(old(Abs()), M.Slot(txBuf[..], old(w)))
      ensures At() == M.Push(old(At()))
    {
      M.QueueSnoc(txBuf[..], r, count);
      assert (w + 1) % TX_SLOTS == M.Live(r, count + 1);
      w := (w + 1) % TX_SLOTS;
      count := count + 1;
      updateNeeded := true;
      TxPrepare();
    }

    /** handle_ep for EP1 with a packet in the FIFO. */
    method Ep1Interrupt(fifo: seq<byte>) returns (stalled: bool)
      requires Valid()
      modifies this`w, this`count, this`updateNeeded, ep1, txBuf
      ensures Valid() && (Abs(), stalled) == Spec.Ep1Interrupt(old(Abs()), fifo)
      ensures At() == if Abs().queue == old(Abs().queue) then old(At()) else M.Push(old(At()))
    {
      ghost var mem := txBuf[..];
      var ok, done := ep1.Out(fifo);
      stalled := !ok;
      if ok {
        M.QueueFrame(mem, txBuf[..], r, count);
      } else {
        assert txBuf[..] == mem;
      }
      if done {
        assert M.Slot(txBuf[..], w) == txBuf[ep1.start..ep1.end];
        TxDone();
      }
    }

    /** The second critical section of buffer_tx_process; the frame returned
        is the one mcp2515_tx loads. */
    method TxSend(txbufEmpty: bool) returns (frame: seq<Packet>)
      requires Valid()
      modifies this`r, this`count, this`updateNeeded
      ensures Valid()
      ensures var b := old(Abs());
              if Spec.CanSend(b, txbufEmpty) then Abs() == Spec.TxSend(b) && frame == [b.queue[0]] && At() == M.Pop(old(At()))
              else Abs() == b && frame == [] && At() == old(At())
    {
      frame := [];
      if count > 0 && txbufEmpty {
        M.QueueTail(txBuf[..], r, count);
        frame := [txBuf[FRAME_SIZE * r..FRAME_SIZE * r + FRAME_SIZE]];
        assert frame[0] == M.Slot(txBuf[..], r);
        assert (r + 1) % TX_SLOTS == M.Live(r, 1);
        r := (r + 1) % TX_SLOTS;
        count := count - 1;
        updateNeeded := true;
      }
    }

    /** buffer_reset: the read index catches up with the write index, so a
        receive that is armed stays armed on a slot outside the live window.
        EP2 must not be sending. */
    method Reset()
      requires Valid() && ep2.state == EP_IDLE
      modifies this`r, this`count, this`rxSlot, this`updateNeeded, rxBuf
      ensures Valid() && Abs() == Spec.Reset(old(Abs()))
      ensures At() == M.Rewind(old(At())) && rxSlot == 0 && M.Zeroed(rxBuf[..], 0)
    {
      r := w;
      count := 0;
      Memset(0, rxBuf.Length);
      rxSlot := 0;
      updateNeeded := false;
      M.ZeroedIsEmpty(rxBuf[..], 0);
    }

    // ----- receive double buffer --------------------------------------------

    /** Writing to the buffer being filled does not disturb the other one. */
    twostate lemma OtherBuffer()
      requires old(Layout() && Ep1Target() && Ep2Owner()) && Layout()
      requires unchanged(this) && unchanged(ep1) && unchanged(ep2) && unchanged(txBuf)
      requires forall k | M.RX_STRUCT * (1 - rxSlot) <= k < M.RX_STRUCT * (1 - rxSlot) + M.RX_STRUCT :: rxBuf[k] == old(rxBuf[k])
      ensures Ep1Target() && Ep2Owner()
      ensures ep1.Abs() == old(ep1.Abs()) && ep2.Abs() == old(ep2.Abs())
      ensures M.Queue(txBuf[..], r, count) == old(M.Queue(txBuf[..], r, count))
    {
      assert txBuf[..] == old(txBuf[..]);
      if ep2.state == EP_TX {
        assert rxBuf[ep2.pos..ep2.end] == old(rxBuf[ep2.pos..ep2.end]);
      }
    }

    /** `offset` of buffer_rx_process, computed before its critical sections. */
    method RxOffset() returns (offset: nat)
      requires Valid()
      ensures offset == M.RX_STRUCT * rxSlot
    {
      offset := M.RX_STRUCT * rxSlot;
    }

    /** A buffer_reset served since `offset` was computed has moved rx_slot away
        from it. */
    ghost predicate Stale(offset: nat)
      reads this
    {
      offset != M.RX_STRUCT * rxSlot
    }

    /** mcp2515_rx or mcp2515_err into the next free frame, if there is one. With
        a stale offset, which Reset leaves with both buffers zero, the frame
        goes to one buffer and its count to the other: the frame is lost, and
        the other buffer will deliver a frame of zeros in its place. */
    method RxTake(offset: nat, frame: Packet)
      requires Valid() && (offset == 0 || offset == M.RX_STRUCT)
      requires Stale(offset) ==> ep2.state == EP_IDLE && M.Zeroed(rxBuf[..], rxSlot)
      modifies rxBuf
      ensures Valid() <==> !Stale(offset)
      ensures !Stale(offset) ==>
                Abs() == if Spec.CanTake(old(Abs())) then Spec.RxTake(old(Abs()), frame) else old(Abs())
      ensures Stale(offset) ==>
                Layout() && Header() && M.Filling(rxBuf[..], rxSlot) == [] &&
                M.FrameCount(rxBuf[..], 1 - rxSlot) == 1 && M.Filling(rxBuf[..], 1 - rxSlot) == [seq(FRAME_SIZE, _ => 0)]
    {
      if Stale(offset) {
        M.ZeroedIsEmpty(rxBuf[..], 1 - rxSlot);
      }
      if rxBuf[offset] as int < RX_MAX_FRAMES {
        AddFrame(offset, frame);
        if Stale(offset) {
          CountWithoutFrame();
        } else {
          OtherBuffer();
        }
      }
    }

    lemma CountWithoutFrame()
      requires Layout() && ep2.state == EP_IDLE
      requires rxBuf[M.RX_STRUCT * rxSlot] == 0 && rxBuf[M.RX_STRUCT * rxSlot + 1] == rxBuf[M.RX_STRUCT * rxSlot + 2] == 0
      requires rxBuf[M.RX_STRUCT * (1 - rxSlot)] == 1
      requires forall k | M.FrameAt(1 - rxSlot, 0) <= k < M.FrameAt(1 - rxSlot, 1) :: rxBuf[k] == 0
      ensures !Valid() && Header() && M.Filling(rxBuf[..], rxSlot) == []
      ensures M.FrameCount(rxBuf[..], 1 - rxSlot) == 1 && M.Filling(rxBuf[..], 1 - rxSlot) == [seq(FRAME_SIZE, _ => 0)]
    {
      assert rxBuf[..][M.RX_STRUCT * (1 - rxSlot)] == 1;
      assert M.RxFrame(rxBuf[..], 1 - rxSlot, 0) == seq(FRAME_SIZE, _ => 0);
    }

    /** The frame, at a place that depends on rx_slot, and the counter at
        `offset`. */
    method AddFrame(offset: nat, frame: Packet)
      requires Layout() && Header() && (offset == 0 || offset == M.RX_STRUCT) && rxBuf[offset] as int < RX_MAX_FRAMES
      modifies rxBuf
      ensures var at := M.FrameAt(rxSlot, old(rxBuf[offset]) as int);
              && rxBuf[at..at + FRAME_SIZE] == frame && rxBuf[offset] == old(rxBuf[offset]) + 1
              && forall k | 0 <= k < rxBuf.Length && k != offset && !(at <= k < at + FRAME_SIZE) :: rxBuf[k] == old(rxBuf[k])
      ensures !Stale(offset) ==>
                Layout() && Header() && M.Filling(rxBuf[..], rxSlot) == old(M.Filling(rxBuf[..], rxSlot)) + [frame]
    {
      ghost var mem := rxBuf[..];
      var n := rxBuf[offset] as int;
      var at := M.FrameAt(rxSlot, n);
      CopyFrame(at, frame);
      rxBuf[offset] := rxBuf[offset] + 1;
      assert rxBuf[at..at + FRAME_SIZE] == frame;
      if !Stale(offset) {
        M.FillingSnoc(mem, rxBuf[..], rxSlot, frame);
      }
    }

    method CopyFrame(at: nat, frame: Packet)
      requires at + FRAME_SIZE <= rxBuf.Length
      modifies rxBuf
      ensures rxBuf[at..at + FRAME_SIZE] == frame
      ensures forall k | 0 <= k < rxBuf.Length && !(at <= k < at + FRAME_SIZE) :: rxBuf[k] == old(rxBuf[k])
    {
      var i := 0;
      while i < FRAME_SIZE
        invariant 0 <= i <= FRAME_SIZE
        invariant forall k | 0 <= k < rxBuf.Length && !(at <= k < at + i) :: rxBuf[k] == old(rxBuf[k])
        invariant forall k | 0 <= k < i :: rxBuf[at + k] == frame[k]
      {
        rxBuf[at + i] := frame[i];
        i := i + 1;
      }
    }

    /** The last critical section of buffer_rx_process. */
    method RxReport()
      requires Valid()
      modifies this`rxSlot, this`updateNeeded, rxBuf, ep2
      ensures Valid()
      ensures Abs() == if Spec.CanReport(old(Abs())) then Spec.RxReport(old(Abs())) else old(Abs())
    {
      if ep2.state == EP_IDLE && (updateNeeded || rxBuf[M.RX_STRUCT * rxSlot] > 0) {
        var size := FinishHeader();
        ghost var bytes := ReportReady(size);
        HandOver(size, bytes);
      }
    }

    lemma ReportReady(size: nat) returns (bytes: seq<byte>)
      requires Layout() && Header() && rxBuf[M.RX_STRUCT * rxSlot + 3] == (TX_SLOTS - count) as byte
      requires size == HEADER_SIZE + FRAME_SIZE * M.FrameCount(rxBuf[..], rxSlot)
      ensures bytes == ReportBytes(TX_SLOTS - count, M.Filling(rxBuf[..], rxSlot))
      ensures size <= M.RX_STRUCT && bytes == rxBuf[..][M.RX_STRUCT * rxSlot..M.RX_STRUCT * rxSlot + size]
    {
      M.ReportInMemory(rxBuf[..], rxSlot, TX_SLOTS - count);
      bytes := ReportBytes(TX_SLOTS - count, M.Filling(rxBuf[..], rxSlot));
    }

    /** EP2 gets the buffer just filled, the main loop the other one. */
    method HandOver(size: nat, ghost bytes: seq<byte>)
      requires Valid() && ep2.state == EP_IDLE && size <= M.RX_STRUCT
      requires var from := M.RX_STRUCT * rxSlot; bytes == rxBuf[..][from..from + size]
      modifies this`rxSlot, this`updateNeeded, ep2
      ensures Valid()
      ensures Abs() == old(Abs()).(ep2 := Send(old(Abs()).ep2, bytes, BufferRxDone), filling := [], update := false)
    {
      ghost var b := Abs();
      assert bytes == rxBuf[M.RX_STRUCT * rxSlot..M.RX_STRUCT * rxSlot + size];
      ep2.Io(EP_TX, rxBuf, M.RX_STRUCT * rxSlot, size, BufferRxDone);
      updateNeeded := false;
      SwapSlots();
      assert M.Queue(txBuf[..], r, count) == b.queue && ep1.Abs() == b.ep1;
    }

    /** rx_slot ^= 1, once the other buffer is clear. */
    method SwapSlots()
      requires Layout() && Ep1Target() && M.Zeroed(rxBuf[..], 1 - rxSlot)
      modifies this`rxSlot
      ensures rxSlot == 1 - old(rxSlot) && Layout() && Ep1Target() && Header()
      ensures M.Filling(rxBuf[..], rxSlot) == []
    {
      M.ZeroedIsEmpty(rxBuf[..], 1 - rxSlot);
      rxSlot := 1 - rxSlot;
    }

    /** Writes free_slots; the report is then complete in memory. */
    method FinishHeader() returns (size: nat)
      requires Valid()
      modifies rxBuf
      ensures Valid() && Abs() == old(Abs())
      ensures size == HEADER_SIZE + FRAME_SIZE * M.FrameCount(rxBuf[..], rxSlot)
      ensures rxBuf[M.RX_STRUCT * rxSlot + 3] == (TX_SLOTS - count) as byte
    {
      ghost var mem := rxBuf[..];
      size := HEADER_SIZE + FRAME_SIZE * rxBuf[M.RX_STRUCT * rxSlot] as int;
      rxBuf[M.RX_STRUCT * rxSlot + 3] := (TX_SLOTS - count) as byte;
      M.FramesFrame(mem, rxBuf[..], rxSlot, M.FrameCount(mem, rxSlot));
      OtherBuffer();
    }

    /** memset to zero */
    method Memset(from: nat, length: nat)
      requires from + length <= rxBuf.Length
      modifies rxBuf
      ensures forall k | 0 <= k < rxBuf.Length :: rxBuf[k] == if from <= k < from + length then 0 else old(rxBuf[k])
    {
      var i := 0;
      while i < length
        invariant 0 <= i <= length
        invariant forall k | 0 <= k < rxBuf.Length :: rxBuf[k] == if from <= k < from + i then 0 else old(rxBuf[k])
      {
        rxBuf[from + i] := 0;
        i := i + 1;
      }
    }

    /** buffer_rx_done: memset of the buffer EP2 has sent. */
    method RxDone()
      requires Layout() && Ep1Target() && Header() && ep2.state == EP_IDLE
      modifies rxBuf
      ensures Valid()
      ensures M.Filling(rxBuf[..], rxSlot) == old(M.Filling(rxBuf[..], rxSlot))
    {
      Memset(M.RX_STRUCT * (1 - rxSlot), M.RX_STRUCT);
      M.FramesFrame(old(rxBuf[..]), rxBuf[..], rxSlot, M.FrameCount(rxBuf[..], rxSlot));
    }

    /** handle_ep for EP2 with the FIFO empty. */
    method Ep2Interrupt() returns (packets: seq<seq<byte>>)
      requires Valid()
      modifies ep2, rxBuf
      ensures Valid() && (Abs(), packets) == Spec.Ep2Interrupt(old(Abs()))
    {
      var sent, fifo, done := ep2.In();
      packets := if sent then [fifo] else [];
      if done {
        RxDone();
      }
    }
  }
}
