/** bootloader/usb/dfu.c with its static variables, on top of the flash writer
    and the EP0 descriptor. Every usb_io below is checked to find EP0 idle. */
module DfuLoader {
  import opened Wire
  import opened Endpoint
  import opened FlashSpec
  import opened FlashWriter
  import opened UsbRequests
  import opened Spec = DfuSpec
  import opened DfuInvariant

  class DfuLoader {
    var state: DfuState
    var status: DfuStatus
    var nextBlock: u16
    var didDownload: bool
    var restarting: bool
    var size: nat               // static in block_receive
    const buf: array<byte>
    const flash: FlashWriter
    const ep0: EndpointDescr
    const desc: Descriptors

    constructor (chip: Chip, desc: Descriptors)
      requires ValidChip(chip) && ValidDescriptors(desc)
      ensures Valid() && Abs() == Loader(dfuIDLE, OK, 0, false, Writer(chip, 0, 0), Ep(Idle, false, EP0_SIZE, false), desc, false)
    {
      var memory := new byte[EP0_SIZE](_ => 0);
      buf := memory;
      flash := new FlashWriter(chip);
      ep0 := new EndpointDescr(false, EP0_SIZE, memory);
      state, status, nextBlock, didDownload, restarting, size := dfuIDLE, OK, 0, false, false, 0;
      this.desc := desc;
    }

    ghost predicate Valid()
      reads this, flash, ep0
    {
      buf.Length == EP0_SIZE && flash.Valid() && ep0.Valid() && !ep0.truncate && ep0.size == EP0_SIZE &&
      ValidDescriptors(desc) &&
      (ep0.state == EP_RX ==> ep0.buf == buf && ep0.start == 0 && ep0.end == size && ep0.callback == BlockWrite)
    }

    ghost function Abs(): Loader
      requires Valid()
      reads this, flash, ep0, ep0.buf
    {
      Loader(state, status, nextBlock, didDownload, flash.Abs(), ep0.Abs(), desc, restarting)
    }

    /** usb_send of bytes that live elsewhere: descriptors, struct dfu. */
    method SendBytes(data: seq<byte>, done: Callback)
      requires Valid() && ep0.state == EP_IDLE && |data| < 0x100
      modifies ep0
      ensures Valid() && Abs() == old(Abs()).(ep0 := Send(old(Abs()).ep0, data, done))
    {
      var memory := new byte[|data|](i requires 0 <= i < |data| => data[i]);
      ep0.Io(EP_TX, memory, 0, |data|, done);
      assert memory[0..0 + |data|] == data;
    }

    /** block_receive */
    method BlockReceive(length: u16) returns (ok: bool)
      requires Valid() && ep0.state == EP_IDLE
      modifies this, ep0
      ensures Valid() && (Abs(), ok) == Spec.BlockReceive(old(Abs()), length)
    {
      var fits := flash.FlashCanWrite(length);
      if !fits {
        state, status := dfuERROR, errADDRESS;
        return false;
      }
      if length > EP0_SIZE {
        state, status := dfuERROR, errUNKNOWN;
        return false;
      }
      size := length;
      ep0.Io(EP_RX, buf, 0, size, BlockWrite);
      ok := true;
    }

    /** block_transmit */
    method BlockTransmit(length: u16) returns (ok: bool)
      requires Valid() && ep0.state == EP_IDLE && CanRead(Abs())
      modifies this, flash, ep0, buf
      ensures Valid() && (Abs(), ok) == Spec.BlockTransmit(old(Abs()), length)
    {
      if length > EP0_SIZE {
        state, status := dfuERROR, errUNKNOWN;
        return true;
      }
      var got := flash.FlashRead(buf, length);
      if got < length {
        state := dfuIDLE;
      }
      ep0.Io(EP_TX, buf, 0, got, NoCallback);
      assert buf[0..0 + got] == buf[..got];
      ok := true;
    }

    /** DFU_DNLOAD */
    method Download(r: SetupRequest) returns (ok: bool)
      requires Valid() && ep0.state == EP_IDLE
      modifies this, flash, ep0
      ensures Valid() && (Abs(), ok) == Spec.Download(old(Abs()), r)
    {
      if state == dfuIDLE {
        nextBlock := r.wValue;
        flash.FlashStart();
      } else if state != dfuDNLOAD_IDLE {
        return false;
      }
      if state != dfuIDLE && r.wValue == Before(nextBlock) {
        return true;
      }
      if r.wValue != nextBlock {
        state, status := dfuERROR, errUNKNOWN;
        return true;
      }
      if r.wLength == 0 {
        flash.FlashEndWrite();
        state, didDownload := dfuIDLE, true;
        return true;
      }
      ok := BlockReceive(r.wLength);
      nextBlock := After(nextBlock);
      state := dfuDNLOAD_IDLE;
    }

    /** DFU_UPLOAD */
    method Upload(r: SetupRequest) returns (ok: bool)
      requires Valid() && ep0.state == EP_IDLE && Ready(Abs())
      modifies this, flash, ep0, buf
      ensures Valid() && (Abs(), ok) == Spec.Upload(old(Abs()), r)
    {
      if state == dfuIDLE {
        nextBlock := r.wValue;
        flash.FlashStart();
      } else if state != dfuUPLOAD_IDLE {
        return false;
      }
      if state != dfuIDLE && r.wValue == Before(nextBlock) {
        state, status := dfuERROR, errUNKNOWN;
        return true;
      }
      if r.wValue != nextBlock {
        state, status := dfuERROR, errUNKNOWN;
        return true;
      }
      ok := BlockTransmit(r.wLength);
      nextBlock := After(nextBlock);
      state := dfuUPLOAD_IDLE;
    }

    /** my_setup, falling through to dfu_setup_common */
    method MySetup(r: SetupRequest) returns (ok: bool)
      requires Valid() && ep0.state == EP_IDLE && Ready(Abs())
      modifies this, flash, ep0, buf
      ensures Valid() && (Abs(), ok) == Spec.MySetup(old(Abs()), r)
    {
      ok := true;
      match Classify(r) {
        case DETACH =>
        case DNLOAD => ok := Download(r);
        case UPLOAD => ok := Upload(r);
        case ABORT => state, status := dfuIDLE, OK;
        case CLRSTATUS => state, status := dfuIDLE, OK;
        case GETSTATUS => SendBytes([StatusCode(status), 100, 0, 0, StateCode(state), 0], NoCallback);
        case GETSTATE => SendBytes([StateCode(state)], NoCallback);
        case Other => ok := false;
      }
    }

    /** handle_setup */
    method HandleSetup(r: SetupRequest) returns (ok: bool)
      requires Valid() && ep0.state == EP_IDLE && Ready(Abs())
      modifies this, flash, ep0, buf
      ensures Valid() && (Abs(), ok) == Spec.HandleSetup(old(Abs()), r)
    {
      ok := true;
      match Standard(desc, r) {
        case Refuse => ok := false;
        case Accept =>
        case Reply(data) => SendBytes(data, NoCallback);
        case SetAddress => SendBytes([], EnableAddr);
        case SelectInterface(_) =>
        case Application => ok := MySetup(r);
      }
    }

    /** The RXSTPI branch of handle_ep with ep_setup: a transfer in progress is
        cancelled first. */
    method SetupInterrupt(r: SetupRequest) returns (ok: bool)
      requires Valid() && Ready(Abs())
      modifies this, flash, ep0, buf
      ensures Valid() && Abs() == OnSetup(old(Abs()), r) && restarting == old(restarting)
      ensures ok == !Stalls(old(Abs()), Setup(r))
    {
      ghost var l := Abs();
      ep0.state := EP_IDLE;
      assert Abs() == l.(ep0 := Cancel(l.ep0));
      ok := HandleSetup(r);
      SetupParts(l, r, Abs(), ok);
      FinishSetup(r, ok);
    }

    /** Stall, or the status stage of a request without data stage. */
    method FinishSetup(r: SetupRequest, ok: bool)
      requires Valid()
      modifies ep0
      ensures Valid()
      ensures var l := old(Abs());
              Abs() == AfterSetup(l, r, ok)
    {
      if !ok {
        ep0.state := EP_IDLE;
      } else if r.bmRequestType < 0x80 && ep0.state == EP_IDLE {
        SendBytes([], NoCallback);
      }
    }

    /** The RXOUTI branch of handle_ep with ep_rx; block_write programs what has
        been received into `buf`. */
    method OutInterrupt(fifo: seq<byte>) returns (ok: bool)
      requires Valid() && Ready(Abs())
      modifies this, flash, ep0, buf
      ensures Valid() && Abs() == OnOut(old(Abs()), fifo)
      ensures ok == !Stalls(old(Abs()), Out(fifo))
    {
      if ep0.state != EP_RX {
        ep0.state := EP_IDLE;
        return false;
      }
      var done;
      ok, done := ep0.Out(fifo);
      if done {
        assert ep0.buf[ep0.start..ep0.end] == buf[..size];
        flash.FlashWrite(buf, size);
        SendBytes([], NoCallback);
      }
    }

    /** The TXINI branch of handle_ep with ep_tx. */
    method InInterrupt() returns (sent: bool, fifo: seq<byte>)
      requires Valid()
      modifies ep0
      ensures Valid() && Abs() == OnIn(old(Abs()))
      ensures sent == !InPacket(old(Abs()).ep0).Masked? && (sent ==> fifo == InPacket(old(Abs()).ep0).packet)
    {
      var done;
      sent, fifo, done := ep0.In();
    }

    /** The RXSTPI branch as a cause: false if it ended in a stall. */
    method ServeSetup(setup: seq<SetupRequest>, ghost c0: Chip, ghost rest: seq<Event>) returns (ok: bool)
      requires Valid() && LoaderInv(c0, Abs()) && !restarting && |setup| <= 1
      modifies this, flash, ep0, buf
      ensures Valid() && LoaderInv(c0, Abs()) && !restarting
      ensures Spec.HandleEp(old(Abs()), Causes(setup, [], false, false) + rest)
           == if ok then Spec.HandleEp(Abs(), rest) else Abs()
    {
      ok := true;
      if setup != [] {
        ghost var e := Setup(setup[0]);
        StepKeeps(c0, Abs(), e);
        HandleEpUnfold(c0, Abs(), e, rest);
        assert Causes(setup, [], false, false) == [e];
        ok := SetupInterrupt(setup[0]);
      } else {
        assert Causes(setup, [], false, false) + rest == rest;
      }
    }

    /** The RXOUTI branch as a cause: false if it ended in a stall. */
    method ServeOut(out: seq<seq<byte>>, ghost c0: Chip, ghost rest: seq<Event>) returns (ok: bool)
      requires Valid() && LoaderInv(c0, Abs()) && !restarting && |out| <= 1
      modifies this, flash, ep0, buf
      ensures Valid() && LoaderInv(c0, Abs()) && !restarting
      ensures Spec.HandleEp(old(Abs()), Causes([], out, false, false) + rest)
           == if ok then Spec.HandleEp(Abs(), rest) else Abs()
    {
      ok := true;
      if out != [] {
        StepKeeps(c0, Abs(), Out(out[0]));
        HandleEpUnfold(c0, Abs(), Out(out[0]), rest);
        assert Causes([], out, false, false) == [Out(out[0])];
        ok := OutInterrupt(out[0]);
      } else {
        assert Causes([], out, false, false) + rest == rest;
      }
    }

    /** The STALLEDI and TXINI branches, which cannot stall. */
    method ServeRest(stalled: bool, txin: bool, ghost c0: Chip)
      requires Valid() && LoaderInv(c0, Abs()) && !restarting
      modifies ep0
      ensures Valid() && Abs() == Spec.HandleEp(old(Abs()), Causes([], [], stalled, txin))
    {
      ghost var last: seq<Event> := if txin then [In] else [];
      if stalled {
        StepKeeps(c0, Abs(), Stalled);
        HandleEpUnfold(c0, Abs(), Stalled, last);
        assert Causes([], [], stalled, txin) == [Stalled] + last;
        ep0.state := EP_IDLE;
      } else {
        assert Causes([], [], stalled, txin) == last;
      }
      if txin {
        HandleEpUnfold(c0, Abs(), In, []);
        assert [In] + [] == last;
        var sent, fifo := InInterrupt();
      }
    }

    /** handle_ep for EP0 with the causes given. */
    method HandleEp(setup: seq<SetupRequest>, out: seq<seq<byte>>, stalled: bool, txin: bool, ghost c0: Chip)
      requires Valid() && LoaderInv(c0, Abs()) && !restarting && |setup| <= 1 && |out| <= 1
      modifies this, flash, ep0, buf
      ensures Valid() && Abs() == Spec.HandleEp(old(Abs()), Causes(setup, out, stalled, txin))
    {
      ghost var rest2 := Causes([], [], stalled, txin);
      ghost var rest1 := Causes([], out, false, false) + rest2;
      assert Causes(setup, out, stalled, txin) == Causes(setup, [], false, false) + rest1;
      var ok := ServeSetup(setup, c0, rest1);
      if ok {
        ok := ServeOut(out, c0, rest2);
        if ok {
          ServeRest(stalled, txin, c0);
        }
      }
    }

    /** End of reset: my_reset restarts the device after a download, otherwise
        ep_init makes EP0 idle. */
    method BusResetInterrupt()
      requires Valid() && !restarting && Ready(Abs())
      modifies this, ep0
      ensures Valid() && Abs() == Step(old(Abs()), BusReset)
    {
      if didDownload {
        restarting := true;
      } else {
        ep0.state := EP_IDLE;
      }
    }
  }
}
