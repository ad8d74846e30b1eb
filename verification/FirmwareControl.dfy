/** firmware/ep0.c with its static variables: the request buffer, can_cfg as the
    memory EP0 receives into, and the CAN buffers it resets. Every usb_io below
    is checked to find EP0 idle. */
module FirmwareControl {
  import opened Wire
  import opened Endpoint
  import opened UsbRequests
  import BufferSpec
  import BuildString
  import C = CanBuffer
  import opened Spec = FirmwareEp0

  class FirmwareControl {
    const ep0: EndpointDescr
    const buf: array<byte>
    const config: array<byte>
    const buffer: C.CanBuffer
    const desc: Descriptors
    const dfuOther: map<(u8, u8), seq<byte>>
    const buildNumber: u16
    const buildDate: seq<byte>
    var handler: Handler
    var dfuState: AppState
    var dfuStatus: byte
    var running: bool
    var restarting: bool
    var size: nat               // static
    var bus: seq<Bus>           // what the CAN controller has been sent

    constructor (desc: Descriptors, dfuOther: map<(u8, u8), seq<byte>>, number: u16, date: seq<byte>)
      requires ValidDescriptors(desc) && ValidDescriptors(desc.(other := dfuOther)) && |date| <= 57
      ensures Valid() && PowerUp(Abs())
    {
      var memory := new byte[64](_ => 0);
      var cfg := new byte[CONFIG_SIZE](_ => 0);
      buf, config := memory, cfg;
      ep0 := new EndpointDescr(false, 64, memory);
      buffer := new C.CanBuffer();
      this.desc, this.dfuOther, buildNumber, buildDate := desc, dfuOther, number, date;
      handler, dfuState, dfuStatus, running, restarting := MySetup, dfuIDLE, 0, false, false;
      size, bus := 0, [];
    }

    /** A data stage fills can_cfg, or `buf` behind the bytes of the request. */
    ghost predicate Ep0Target()
      reads this, ep0, buf
    {
      ep0.state == EP_RX ==>
        if ep0.callback.DoBufWrite? then
          var n := |ep0.callback.head|;
          ep0.buf == buf && 1 <= n <= 2 && ep0.start == n <= ep0.end == size <= buf.Length &&
          buf[..n] == ep0.callback.head
        else
          ep0.buf == config && ep0.start == 0 && ep0.end == CONFIG_SIZE && ep0.callback == NoCallback
    }

    ghost predicate Valid()
      reads this, ep0, buf, buffer, buffer.ep1, buffer.ep2, buffer.rxBuf
    {
      ep0.Valid() && !ep0.truncate && ep0.size == 64 && buf.Length == 64 && config.Length == CONFIG_SIZE && buf != config &&
      ValidDescriptors(desc) && ValidDescriptors(desc.(other := dfuOther)) && |buildDate| <= 57 &&
      buffer.Valid() && ep0 != buffer.ep1 && ep0 != buffer.ep2 &&
      buffer.txBuf != buf && buffer.txBuf != config && buffer.rxBuf != buf && buffer.rxBuf != config &&
      ep0.buf != buffer.rxBuf && ep0.buf != buffer.txBuf && Ep0Target()
    }

    ghost function Abs(): Device
      requires Valid()
      reads this, ep0, ep0.buf, buf, config, buffer, buffer.ep1, buffer.ep2, buffer.txBuf, buffer.rxBuf
    {
      Device(ep0.Abs(), handler, dfuState, dfuStatus, config[..], bus, buffer.Abs(), running, restarting,
             desc, dfuOther, buildNumber, buildDate)
    }

    /** usb_send of bytes that live elsewhere: descriptors, struct dfu. */
    method SendBytes(data: seq<byte>, done: Callback)
      requires Valid() && ep0.state == EP_IDLE && |data| < 0x100
      modifies ep0
      ensures Valid() && Abs() == old(Abs()).(ep0 := Send(old(Abs()).ep0, data, done))
    {
      var memory := new byte[|data|](i requires 0 <= i < |data| => data[i]);
      ep0.Io(EP_TX, memory, 0, |data|, done);
      assert memory[0..0 + |data|] == data;
    }

    /** usb_send of a part of `buf`. */
    method SendBuf(from: nat, n: nat)
      requires Valid() && ep0.state == EP_IDLE && from + n <= 64
      modifies ep0
      ensures Valid() && Abs() == old(Abs()).(ep0 := Send(old(Abs()).ep0, buf[from..from + n], NoCallback))
    {
      ep0.Io(EP_TX, buf, from, n, NoCallback);
    }

    /** While EP0 is idle `buf` is scratch memory. */
    twostate lemma BufIsScratch()
      requires old(Valid()) && ep0.state == EP_IDLE
      requires unchanged(this) && unchanged(ep0) && unchanged(config) && unchanged(buffer)
      requires unchanged(buffer.ep1) && unchanged(buffer.ep2) && unchanged(buffer.txBuf) && unchanged(buffer.rxBuf)
      ensures Valid() && Abs() == old(Abs())
    {
    }

    /** Bytes read from the hardware into `buf`. */
    method CopyToBuf(data: seq<byte>)
      requires Valid() && ep0.state == EP_IDLE && |data| <= 64
      modifies buf
      ensures buf[..|data|] == data
      ensures Valid() && Abs() == old(Abs())
    {
      var i := 0;
      while i != |data|
        invariant 0 <= i <= |data|
        invariant buf[..i] == data[..i]
        decreases |data| - i
      {
        buf[i] := data[i];
        i := i + 1;
      }
      BufIsScratch();
    }

    method SendRead(data: seq<byte>)
      requires Valid() && ep0.state == EP_IDLE && |data| <= 64
      modifies ep0, buf
      ensures Valid() && Abs() == old(Abs()).(ep0 := Send(old(Abs()).ep0, data, NoCallback))
    {
      CopyToBuf(data);
      SendBuf(0, |data|);
    }

    /** ATUSB_BUILD */
    method SendBuild(length: u16) returns (ok: bool)
      requires Valid() && ep0.state == EP_IDLE
      modifies this`size, ep0, buf
      ensures Valid()
      ensures var reply := BuildString.Reply(buildNumber, buildDate);
              ok == (|reply| <= length) &&
              Abs() == if ok then old(Abs()).(ep0 := Send(old(Abs()).ep0, reply, NoCallback)) else old(Abs())
    {
      var from, n := FormatBuild();
      size := n;
      ok := size <= length;
      if ok {
        SendBuf(from, n);
      }
    }

    method FormatBuild() returns (from: nat, n: nat)
      requires Valid() && ep0.state == EP_IDLE
      modifies buf
      ensures Valid() && Abs() == old(Abs())
      ensures from + n <= 64 && buf[from..from + n] == BuildString.Reply(buildNumber, buildDate)
    {
      from, n := BuildString.Format(buf, buildNumber, buildDate);
      BufIsScratch();
    }

    /** ATUSB_CAN_PUT_CONFIG receives into can_cfg itself. */
    method ReceiveConfig()
      requires Valid() && ep0.state == EP_IDLE
      modifies ep0
      ensures Valid() && Abs() == old(Abs()).(ep0 := Recv(old(Abs()).ep0, CONFIG_SIZE, NoCallback))
    {
      ep0.Io(EP_RX, config, 0, CONFIG_SIZE, NoCallback);
    }

    /** ATUSB_CAN_GET_CONFIG sends can_cfg itself. */
    method SendConfig()
      requires Valid() && ep0.state == EP_IDLE
      modifies ep0
      ensures Valid() && Abs() == old(Abs()).(ep0 := Send(old(Abs()).ep0, old(Abs()).config, NoCallback))
    {
      ep0.Io(EP_TX, config, 0, CONFIG_SIZE, NoCallback);
      assert config[0..0 + CONFIG_SIZE] == config[..];
    }

    /** ATUSB_CAN_START and ATUSB_CAN_STOP; EP2 must not be sending. */
    method StartStop(start: bool)
      requires Valid() && ep0.state == EP_IDLE && buffer.ep2.state == EP_IDLE
      modifies this`running, buffer, buffer.rxBuf
      ensures Valid() && Abs() == old(Abs()).(buffer := BufferSpec.Reset(old(Abs()).buffer), running := start)
    {
      buffer.Reset();
      running := start;
    }

    /** do_buf_write */
    method DoBufWrite()
      requires Valid() && ep0.state == EP_IDLE && size <= buf.Length
      modifies this`bus
      ensures Valid() && Abs() == old(Abs()).(bus := old(bus) + [Spi(buf[..size])])
    {
      var mosi: seq<byte> := [];
      var i := 0;
      while i != size
        invariant 0 <= i <= size && mosi == buf[..i]
        decreases size - i
      {
        mosi := mosi + [buf[i]];
        i := i + 1;
      }
      bus := bus + [Spi(mosi)];
    }

    /** The bytes of the request in front of the data. */
    method PutHead(r: SetupRequest) returns (n: nat)
      requires Valid() && ep0.state == EP_IDLE
      modifies buf
      ensures n == |Head(r)| && buf[..n] == Head(r)
      ensures Valid() && Abs() == old(Abs())
    {
      buf[0] := Low8(r.wValue);
      n := 1;
      if r.bRequest != 0x30 && r.bRequest != 0x32 {
        buf[1] := Low8(r.wIndex);
        n := 2;
      }
      BufIsScratch();
    }

    method ReceiveBehind(head: seq<byte>, length: nat)
      requires Valid() && ep0.state == EP_IDLE && 1 <= |head| <= 2 && |head| + length % 0x100 == size <= 64
      requires buf[..|head|] == head
      modifies ep0
      ensures Valid() && Abs() == old(Abs()).(ep0 := Recv(old(Abs()).ep0, length % 0x100, Callback.DoBufWrite(head)))
    {
      ep0.Io(EP_RX, buf, |head|, length, Callback.DoBufWrite(head));
    }

    /** The bytes of the request, and the data behind them or, if there is none,
        the transfer at once. */
    method SpiData(r: SetupRequest)
      requires Valid() && ep0.state == EP_IDLE && |Head(r)| + r.wLength % 0x100 == size <= 64
      modifies this`bus, ep0, buf
      ensures Valid()
      ensures Abs() == if r.wLength > 0 then old(Abs()).(ep0 := Recv(old(Abs()).ep0, r.wLength % 0x100, Callback.DoBufWrite(Head(r))))
                       else old(Abs()).(bus := old(bus) + [Spi(Head(r))])
    {
      var n := PutHead(r);
      if r.wLength > 0 {
        ReceiveBehind(Head(r), r.wLength);
      } else {
        assert buf[..size] == Head(r);
        DoBufWrite();
      }
    }

    /** ATUSB_SPI_WRITE1 and ATUSB_SPI_WRITE2 */
    method SpiWriteRequest(r: SetupRequest) returns (ok: bool)
      requires Valid() && ep0.state == EP_IDLE && SpiWrite(r) && Sane(r)
      modifies this`size, this`bus, ep0, buf
      ensures Valid() && (Abs(), ok) == BusSetup(old(Abs()), r, QUIET)
    {
      SaneIff(r);
      size := (r.wLength + if r.bRequest == 0x30 then 1 else 2) % 0x100;
      ok := size <= 64;
      if ok {
        SpiData(r);
      }
    }

    /** A transaction on the SPI bus whose answer goes to the host. */
    method Ask(out: Bus, answer: seq<byte>)
      requires Valid() && ep0.state == EP_IDLE && |answer| <= 64
      modifies this`bus, ep0, buf
      ensures Valid() && Abs() == Replied(old(Abs()).(bus := old(bus) + [out]), answer).0
    {
      bus := bus + [out];
      SendRead(answer);
    }

    /** Register access, and reading from the SPI bus. */
    method BusRequest(r: SetupRequest, line: Inputs) returns (ok: bool)
      requires Valid() && ep0.state == EP_IDLE && Sane(r)
      modifies this`size, this`bus, ep0, buf
      ensures Valid() && (Abs(), ok) == BusSetup(old(Abs()), r, line)
    {
      ok := true;
      if SpiWrite(r) {
        ok := SpiWriteRequest(r);
      } else if SpiRead(r) {
        Ask(Spi(Head(r) + LineReads([], r.wLength)), LineReads(line.miso, r.wLength));
      } else if r.bmRequestType == 0x40 && r.bRequest == 0x20 {
        bus := bus + [RegWrite(Low8(r.wIndex), Low8(r.wValue))];
      } else if r.bmRequestType == 0xc0 && r.bRequest == 0x21 {
        Ask(RegRead(Low8(r.wIndex)), [line.reg]);
      } else {
        ok := false;
      }
    }

    /** ATUSB_ID, ATUSB_BUILD, ATUSB_RESET and ATUSB_GPIO */
    method SystemRequest(r: SetupRequest, line: Inputs) returns (ok: bool)
      requires Valid() && ep0.state == EP_IDLE
      modifies this`restarting, this`size, ep0, buf
      ensures Valid() && (Abs(), ok) == SystemSetup(old(Abs()), r, line)
    {
      ok := true;
      match (r.bmRequestType, r.bRequest) {
        case (0xc0, 0x00) =>
          if r.wLength > 2 {
            return false;
          }
          SendBytes([0, 1][..r.wLength], NoCallback);
        case (0xc0, 0x01) =>
          BuildString.ReplyInvertible(buildNumber, buildDate);
          ok := SendBuild(r.wLength);
        case (0x40, 0x02) =>
          restarting := true;
        case (0xc0, 0x10) =>
          if r.wLength < 3 || !(1 <= r.wIndex % 0x100 <= 3) {
            return false;
          }
          SendRead(line.pins);
        case _ => ok := false;
      }
    }

    /** ATUSB_CAN_PUT_CONFIG, ATUSB_CAN_GET_CONFIG, ATUSB_CAN_START, ATUSB_CAN_STOP */
    method CanRequest(r: SetupRequest) returns (ok: bool)
      requires Valid() && ep0.state == EP_IDLE && (StartOrStop(r) ==> buffer.ep2.state == EP_IDLE)
      modifies this`running, ep0, buffer, buffer.rxBuf
      ensures Valid() && (Abs(), ok) == CanSetup(old(Abs()), r)
    {
      ok := true;
      match (r.bmRequestType, r.bRequest) {
        case (0x40, 0x40) =>
          if r.wLength != CONFIG_SIZE {
            return false;
          }
          ReceiveConfig();
        case (0xc0, 0x41) =>
          if r.wLength != CONFIG_SIZE {
            return false;
          }
          SendConfig();
        case (0x40, 0x42) => StartStop(true);
        case (0x40, 0x43) => StartStop(false);
        case _ => ok := false;
      }
    }

    /** my_setup; only ATUSB_CAN_START and ATUSB_CAN_STOP mind what EP2 is doing. */
    method AppSetupRequest(r: SetupRequest, line: Inputs) returns (ok: bool)
      requires Valid() && ep0.state == EP_IDLE && Sane(r) && (StartOrStop(r) ==> buffer.ep2.state == EP_IDLE)
      modifies this, ep0, buf, buffer, buffer.rxBuf
      ensures Valid() && (Abs(), ok) == AppSetup(old(Abs()), r, line)
    {
      if r.bRequest >= 0x40 {
        ok := CanRequest(r);
      } else if r.bRequest >= 0x20 {
        ok := BusRequest(r, line);
      } else {
        ok := SystemRequest(r, line);
      }
    }

    /** my_dfu_setup, falling through to dfu_setup_common */
    method DfuSetupRequest(r: SetupRequest) returns (ok: bool)
      requires Valid() && ep0.state == EP_IDLE
      modifies this`dfuState, this`dfuStatus, ep0
      ensures Valid() && (Abs(), ok) == DfuSetup(old(Abs()), r)
    {
      ok := true;
      match (r.bmRequestType, r.bRequest) {
        case (0x21, 0) => dfuState := appDETACH;
        case (0xa1, 3) => SendBytes([dfuStatus, 100, 0, 0, StateCode(dfuState), 0], NoCallback);
        case (0x21, 4) => dfuState, dfuStatus := dfuIDLE, 0;
        case (0xa1, 5) => SendBytes([StateCode(dfuState)], NoCallback);
        case _ => ok := false;
      }
    }

    /** handle_setup */
    method HandleSetupRequest(r: SetupRequest, line: Inputs) returns (ok: bool)
      requires Valid() && ep0.state == EP_IDLE && Sane(r) && (StartOrStop(r) ==> buffer.ep2.state == EP_IDLE)
      modifies this, ep0, buf, buffer, buffer.rxBuf
      ensures Valid() && (Abs(), ok) == HandleSetup(old(Abs()), r, line)
    {
      var table := if handler.MySetup? then desc else desc.(other := dfuOther);
      ok := RespondTo(Standard(table, r), r, line);
    }

    method RespondTo(a: Answer, r: SetupRequest, line: Inputs) returns (ok: bool)
      requires Valid() && ep0.state == EP_IDLE && Sane(r) && (StartOrStop(r) ==> buffer.ep2.state == EP_IDLE)
      requires a.Reply? ==> |a.data| < 0x100
      modifies this, ep0, buf, buffer, buffer.rxBuf
      ensures Valid() && (Abs(), ok) == Respond(old(Abs()), a, r, line)
    {
      ok := true;
      match a {
        case Refuse => ok := false;
        case Accept =>
        case Reply(data) => SendBytes(data, NoCallback);
        case SetAddress => SendBytes([], EnableAddr);
        case SelectInterface(nth) => SelectInterfaceRequest(nth);
        case Application =>
          if handler.MySetup? {
            ok := AppSetupRequest(r, line);
          } else {
            ok := DfuSetupRequest(r);
          }
      }
    }

    /** my_set_interface */
    method SelectInterfaceRequest(nth: nat)
      requires Valid()
      modifies this`handler, this`dfuState
      ensures Valid() && Abs() == SelectHandler(old(Abs()), nth)
    {
      if nth != 0 {
        handler, dfuState := MyDfuSetup, appIDLE;
      } else {
        handler := MySetup;
      }
    }

    /** The RXSTPI branch of handle_ep with ep_setup. */
    method SetupInterrupt(r: SetupRequest, line: Inputs)
      requires Valid() && Sane(r) && (StartOrStop(r) ==> buffer.ep2.state == EP_IDLE)
      modifies this, ep0, buf, buffer, buffer.rxBuf
      ensures Valid() && Abs() == OnSetup(old(Abs()), r, line)
    {
      ghost var d := Abs();
      ep0.state := EP_IDLE;
      assert Abs() == d.(ep0 := Cancel(d.ep0));
      var ok := HandleSetupRequest(r, line);
      SetupParts(d, r, line, Abs(), ok);
      FinishSetup(r, ok);
    }

    /** Stall, or the status stage of a request without data stage. */
    method FinishSetup(r: SetupRequest, ok: bool)
      requires Valid()
      modifies ep0
      ensures Valid() && Abs() == AfterSetup(old(Abs()), r, ok)
    {
      if !ok {
        ep0.state := EP_IDLE;
      } else if r.bmRequestType < 0x80 && ep0.state == EP_IDLE {
        SendBytes([], NoCallback);
      }
    }

    /** The RXOUTI branch of handle_ep with ep_rx: bytes go straight into can_cfg
        or `buf`; the callback of the SPI requests runs on the last packet. */
    method OutInterrupt(fifo: seq<byte>)
      requires Valid()
      modifies this`bus, ep0, config, buf
      ensures Valid() && Abs() == OnOut(old(Abs()), fifo)
    {
      if ep0.state != EP_RX {
        ep0.state := EP_IDLE;
      } else if ep0.callback.DoBufWrite? {
        OutToBuf(fifo);
      } else {
        OutToConfig(fifo);
      }
    }

    method OutToConfig(fifo: seq<byte>)
      requires Valid() && ep0.state == EP_RX && !ep0.callback.DoBufWrite?
      modifies ep0, config
      ensures Valid() && Abs() == OnOut(old(Abs()), fifo)
    {
      ghost var before, at := config[..], ep0.pos;
      var ok, done := ep0.Out(fifo);
      if ok {
        assert config[..ep0.pos] == before[..at] + fifo;
        assert config[..] == Overlay(before, before[..at] + fifo);
      } else {
        assert config[..] == before;
      }
      if done {
        SendBytes([], NoCallback);
      }
    }

    method OutToBuf(fifo: seq<byte>)
      requires Valid() && ep0.state == EP_RX && ep0.callback.DoBufWrite?
      modifies this`bus, ep0, buf
      ensures Valid() && Abs() == OnOut(old(Abs()), fifo)
    {
      ghost var head := ep0.callback.head;
      var ok, done := ep0.Out(fifo);
      assert buf[..|head|] == head;
      if done {
        FinishSpi(head, buf[ep0.start..ep0.end]);
      }
    }

    /** The callback, then the status stage. */
    method FinishSpi(ghost head: seq<byte>, ghost data: seq<byte>)
      requires Valid() && ep0.state == EP_IDLE && |head| + |data| == size <= buf.Length
      requires buf[..|head|] == head && buf[|head|..size] == data
      modifies this`bus, ep0
      ensures Valid()
      ensures Abs() == old(Abs()).(bus := old(bus) + [Spi(head + data)], ep0 := Send(old(Abs()).ep0, [], NoCallback))
    {
      assert buf[..size] == head + data;
      DoBufWrite();
      SendBytes([], NoCallback);
    }

    /** End of reset: my_reset restarts a device that is to be detached,
        otherwise ep_init makes all endpoints idle. EP2 must not be sending. */
    method BusResetInterrupt()
      requires Valid() && !restarting && buffer.ep2.state == EP_IDLE
      modifies this`restarting, ep0, buffer.ep1
      ensures Valid() && Abs() == Step(old(Abs()), BusReset)
    {
      if dfuState.appDETACH? {
        restarting := true;
      } else {
        InitEndpoints();
      }
    }

    /** ep_init */
    method InitEndpoints()
      requires Valid() && buffer.ep2.state == EP_IDLE
      modifies ep0, buffer.ep1
      ensures Valid() && Abs() == Initialised(old(Abs()))
    {
      ep0.state := EP_IDLE;
      buffer.ep1.state := EP_IDLE;
    }
  }
}
