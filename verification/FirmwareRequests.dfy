/** What the running firmware answers, request by request: from the bytes of the
    SETUP packet to the bytes the host gets on EP0, what reaches the CAN
    controller, and what the request changes. */
module FirmwareRequests {
  import opened Wire
  import opened Endpoint
  import opened UsbRequests
  import BufferSpec
  import BuildString
  import opened FirmwareEp0

  predicate Sound(d: Device) {
    Ready(d) && !d.ep0.bug && d.ep0.size == 64 && !d.ep0.truncate
  }

  /** A stall, and nothing else has happened. */
  predicate Refuses(d: Device, r: SetupRequest, line: Inputs)
    requires Ready(d)
  {
    !HandleSetup(d.(ep0 := Cancel(d.ep0)), r, line).1 && OnSetup(d, r, line) == d.(ep0 := Cancel(d.ep0))
  }

  /** The host gets `data`, and the device becomes `m`. */
  ghost predicate Answers(d: Device, r: SetupRequest, line: Inputs, m: Device, data: seq<byte>, callback: Callback)
    requires Ready(d)
  {
    var t := OnSetup(d, r, line);
    HandleSetup(d.(ep0 := Cancel(d.ep0)), r, line).1 && t == m.(ep0 := t.ep0) && Delivers(t.ep0, data, callback)
  }

  /** The empty packet of the status stage. */
  ghost predicate Acknowledges(d: Device, r: SetupRequest, line: Inputs, m: Device)
    requires Ready(d)
  {
    Answers(d, r, line, m, [], NoCallback)
  }

  /** A data stage of `room` bytes is to follow. */
  predicate Awaits(d: Device, r: SetupRequest, line: Inputs, room: nat, callback: Callback)
    requires Ready(d)
  {
    HandleSetup(d.(ep0 := Cancel(d.ep0)), r, line).1 &&
    OnSetup(d, r, line) == d.(ep0 := d.ep0.(xfer := Receiving([], room, callback)))
  }

  // ----- standard requests --------------------------------------------------------

  /** A handler that has refused, sent a reply, or done without. */
  lemma Ends(d: Device, r: SetupRequest, line: Inputs, m: Device, ok: bool)
    requires Sound(d) && (m, ok) == HandleSetup(d.(ep0 := Cancel(d.ep0)), r, line)
    ensures !ok && m.(ep0 := d.ep0) == d ==> Refuses(d, r, line)
    ensures ok && m.ep0 == Cancel(d.ep0) && r.bmRequestType < 0x80 ==> Acknowledges(d, r, line, m)
  {
    SetupParts(d, r, line, m, ok);
    SendDelivers(Cancel(d.ep0), [], NoCallback);
  }

  lemma Sends(d: Device, r: SetupRequest, line: Inputs, m: Device, data: seq<byte>, callback: Callback)
    requires Sound(d) && (m, true) == HandleSetup(d.(ep0 := Cancel(d.ep0)), r, line)
    requires m.ep0 == Send(Cancel(d.ep0), data, callback)
    ensures Answers(d, r, line, m, data, callback)
  {
    SetupParts(d, r, line, m, true);
    SendDelivers(Cancel(d.ep0), data, callback);
  }

  lemma ServesReply(d: Device, r: SetupRequest, line: Inputs, data: seq<byte>)
    requires Sound(d) && Standard(Table(d), r) == Reply(data)
    ensures Answers(d, r, line, d, data, NoCallback)
  {
    var d0 := d.(ep0 := Cancel(d.ep0));
    Sends(d, r, line, Replied(d0, data).0, data, NoCallback);
  }

  lemma ServesAddress(d: Device, r: SetupRequest, line: Inputs)
    requires Sound(d) && Standard(Table(d), r) == SetAddress
    ensures Answers(d, r, line, d, [], EnableAddr)
  {
    Sends(d, r, line, d.(ep0 := Send(Cancel(d.ep0), [], EnableAddr)), [], EnableAddr);
  }

  lemma ServesRefusal(d: Device, r: SetupRequest, line: Inputs)
    requires Sound(d) && Standard(Table(d), r) == Refuse
    ensures Refuses(d, r, line)
  {
    Ends(d, r, line, d.(ep0 := Cancel(d.ep0)), false);
  }

  lemma ServesAccept(d: Device, r: SetupRequest, line: Inputs)
    requires Sound(d) && Standard(Table(d), r) == Accept && r.bmRequestType < 0x80
    ensures Acknowledges(d, r, line, d)
  {
    Ends(d, r, line, d.(ep0 := Cancel(d.ep0)), true);
  }

  lemma ServesInterface(d: Device, r: SetupRequest, line: Inputs, nth: nat)
    requires Sound(d) && Standard(Table(d), r) == SelectInterface(nth) && r.bmRequestType < 0x80
    ensures Acknowledges(d, r, line, SelectHandler(d, nth))
  {
    Ends(d, r, line, SelectHandler(d.(ep0 := Cancel(d.ep0)), nth), true);
  }

  /** Enumeration: the host gets the first wLength bytes of the descriptor it asks
      for, and is refused if and only if there is none; strings and the DFU
      descriptor take turns with the handler selected. */
  lemma GetDescriptorRequest(d: Device, line: Inputs, kind: u8, index: u8, language: u16, length: u16)
    requires Sound(d)
    ensures var r := SetupRequest(0x80, 6, 0x100 * kind + index, language, length);
            var table := d.desc.(other := if d.handler.MySetup? then d.desc.other else d.dfuOther);
            && (forall whole | Describes(table, kind, index, whole) ::
                  Answers(d, r, line, d, whole[..Min(|whole|, length)], NoCallback))
            && (Refuses(d, r, line) <==> forall whole :: !Describes(table, kind, index, whole))
  {
    var r := SetupRequest(0x80, 6, 0x100 * kind + index, language, length);
    assert Table(d) == d.desc.(other := if d.handler.MySetup? then d.desc.other else d.dfuOther);
    DescriptorAnswer(Table(d), kind, index, language, length);
    match Standard(Table(d), r)
    case Refuse => ServesRefusal(d, r, line);
    case Reply(data) => ServesReply(d, r, line, data);
  }

  /** SET_ADDRESS, GET_STATUS and CLEAR_FEATURE of the device. */
  lemma DeviceRequests(d: Device, line: Inputs, value: u16, index: u16, length: u16)
    requires Sound(d)
    ensures Answers(d, SetupRequest(0, 5, value, index, length), line, d, [], EnableAddr)
    ensures var r := SetupRequest(0x80, 0, value, index, length);
            if length == 2 then Answers(d, r, line, d, [0, 0], NoCallback) else Refuses(d, r, line)
    ensures Acknowledges(d, SetupRequest(0, 1, value, index, length), line, d)
  {
    ServesAddress(d, SetupRequest(0, 5, value, index, length), line);
    var r := SetupRequest(0x80, 0, value, index, length);
    if length == 2 {
      ServesReply(d, r, line, [0, 0]);
    } else {
      ServesRefusal(d, r, line);
    }
    ServesAccept(d, SetupRequest(0, 1, value, index, length), line);
  }

  /** GET_CONFIGURATION, and SET_CONFIGURATION, which accepts the value in the sixth
      byte of the configuration descriptor and no other. */
  lemma ConfigurationRequests(d: Device, line: Inputs, value: u16, index: u16, length: u16)
    requires Sound(d)
    ensures Answers(d, SetupRequest(0x80, 8, value, index, length), line, d, [0], NoCallback)
    ensures var r := SetupRequest(0, 9, value, index, length);
            if value == d.desc.config[5] as int then Acknowledges(d, r, line, d) else Refuses(d, r, line)
  {
    ServesReply(d, SetupRequest(0x80, 8, value, index, length), line, [0]);
    var r := SetupRequest(0, 9, value, index, length);
    if value == d.desc.config[5] as int {
      ServesAccept(d, r, line);
    } else {
      ServesRefusal(d, r, line);
    }
  }

  /** SET_INTERFACE with the firmware's own descriptors: interface 0 selects the
      vendor requests, interface 1 and the two endpoint descriptors that pass
      for interfaces select the DFU requests, anything else is refused. */
  lemma InterfaceRequest(d: Device, line: Inputs, power: byte, value: u16, index: u16, length: u16)
    requires Sound(d) && d.desc.config == FirmwareConfig(power)
    ensures var r := SetupRequest(1, 11, value, index, length);
            if (value, index) == (0, 0) then Acknowledges(d, r, line, d.(handler := MySetup))
            else if (value, index) in {(0, 1), (2, 0x01), (2, 0x82)} then
              Acknowledges(d, r, line, d.(handler := MyDfuSetup, dfuState := appIDLE))
            else Refuses(d, r, line)
  {
    FirmwareInterfaces(power, value, index);
    match Standard(Table(d), SetupRequest(1, 11, value, index, length))
    case Refuse => ServesRefusal(d, SetupRequest(1, 11, value, index, length), line);
    case SelectInterface(nth) => ServesInterface(d, SetupRequest(1, 11, value, index, length), line, nth);
  }

  // ----- requests of the application ------------------------------------------------

  const VENDOR: set<(u8, u8)> :=
    {(0xc0, 0x00), (0xc0, 0x01), (0x40, 0x02), (0xc0, 0x10), (0x40, 0x20), (0xc0, 0x21), (0x40, 0x30), (0x40, 0x31),
     (0xc0, 0x32), (0xc0, 0x33), (0x40, 0x40), (0xc0, 0x41), (0x40, 0x42), (0x40, 0x43)}

  const DFU: set<(u8, u8)> := {(0x21, 0), (0xa1, 3), (0x21, 4), (0xa1, 5)}

  /** Each handler understands its own requests and refuses those of the other. */
  lemma OtherRequests(d: Device, r: SetupRequest, line: Inputs)
    requires Sound(d) && (r.bmRequestType, r.bRequest) !in SERVED + if d.handler.MySetup? then VENDOR else DFU
    ensures Refuses(d, r, line)
  {
    ApplicationIff(Table(d), r);
    Ends(d, r, line, d.(ep0 := Cancel(d.ep0)), false);
  }

  lemma NotStandard(d: Device, r: SetupRequest)
    requires Sound(d) && (r.bmRequestType, r.bRequest) in VENDOR + DFU
    ensures Standard(Table(d), r) == Application
  {
    ApplicationIff(Table(d), r);
  }

  /** What the vendor handler has made of a request. */
  lemma Vendor(d: Device, r: SetupRequest, line: Inputs, m: Device, ok: bool)
    requires Sound(d) && (r.bmRequestType, r.bRequest) in VENDOR && d.handler.MySetup?
    requires (m, ok) == AppSetup(d.(ep0 := Cancel(d.ep0)), r, line)
    ensures HandleSetup(d.(ep0 := Cancel(d.ep0)), r, line) == (m, ok)
  {
    NotStandard(d, r);
  }

  lemma DfuHandler(d: Device, r: SetupRequest, line: Inputs, m: Device, ok: bool)
    requires Sound(d) && (r.bmRequestType, r.bRequest) in DFU && d.handler.MyDfuSetup?
    requires (m, ok) == DfuSetup(d.(ep0 := Cancel(d.ep0)), r)
    ensures HandleSetup(d.(ep0 := Cancel(d.ep0)), r, line) == (m, ok)
  {
    NotStandard(d, r);
  }

  lemma VendorRefuses(d: Device, r: SetupRequest, line: Inputs)
    requires Sound(d) && (r.bmRequestType, r.bRequest) in VENDOR && d.handler.MySetup?
    requires var d0 := d.(ep0 := Cancel(d.ep0)); AppSetup(d0, r, line) == (d0, false)
    ensures Refuses(d, r, line)
  {
    var d0 := d.(ep0 := Cancel(d.ep0));
    Vendor(d, r, line, d0, false);
    Ends(d, r, line, d0, false);
  }

  lemma VendorAccepts(d: Device, r: SetupRequest, line: Inputs, m: Device)
    requires Sound(d) && (r.bmRequestType, r.bRequest) in VENDOR && d.handler.MySetup? && r.bmRequestType == 0x40
    requires m.ep0 == Cancel(d.ep0) && AppSetup(d.(ep0 := Cancel(d.ep0)), r, line) == (m, true)
    ensures Acknowledges(d, r, line, m)
  {
    Vendor(d, r, line, m, true);
    Ends(d, r, line, m, true);
  }

  lemma VendorReplies(d: Device, r: SetupRequest, line: Inputs, m: Device, data: seq<byte>)
    requires Sound(d) && (r.bmRequestType, r.bRequest) in VENDOR && d.handler.MySetup? && m.ep0 == Cancel(d.ep0)
    requires AppSetup(d.(ep0 := Cancel(d.ep0)), r, line) == Replied(m, data)
    ensures Answers(d, r, line, m, data, NoCallback)
  {
    var m1 := Replied(m, data).0;
    Vendor(d, r, line, m1, true);
    Sends(d, r, line, m1, data, NoCallback);
  }

  // ----- the vendor requests -------------------------------------------------------------

  /** ATUSB_CAN_START and ATUSB_CAN_STOP: the controller runs or does not, with
      empty buffers. */
  lemma RunRequests(d: Device, line: Inputs, value: u16, index: u16, length: u16)
    requires Sound(d) && d.handler.MySetup?
    ensures Acknowledges(d, SetupRequest(0x40, 0x42, value, index, length), line, d.(running := true, buffer := BufferSpec.Reset(d.buffer)))
    ensures Acknowledges(d, SetupRequest(0x40, 0x43, value, index, length), line, d.(running := false, buffer := BufferSpec.Reset(d.buffer)))
  {
    var d0 := d.(ep0 := Cancel(d.ep0), buffer := BufferSpec.Reset(d.buffer));
    VendorAccepts(d, SetupRequest(0x40, 0x42, value, index, length), line, d0.(running := true));
    VendorAccepts(d, SetupRequest(0x40, 0x43, value, index, length), line, d0.(running := false));
  }

  /** ATUSB_CAN_PUT_CONFIG and ATUSB_CAN_GET_CONFIG move exactly six bytes. */
  lemma ConfigRequests(d: Device, line: Inputs, value: u16, index: u16, length: u16)
    requires Sound(d) && d.handler.MySetup?
    ensures var put, get := SetupRequest(0x40, 0x40, value, index, length), SetupRequest(0xc0, 0x41, value, index, length);
            if length == 6 then Awaits(d, put, line, 6, NoCallback) && Answers(d, get, line, d, d.config, NoCallback)
            else Refuses(d, put, line) && Refuses(d, get, line)
  {
    var put, get := SetupRequest(0x40, 0x40, value, index, length), SetupRequest(0xc0, 0x41, value, index, length);
    var d0 := d.(ep0 := Cancel(d.ep0));
    if length == 6 {
      Vendor(d, put, line, d0.(ep0 := Recv(d0.ep0, 6, NoCallback)), true);
      SetupParts(d, put, line, d0.(ep0 := Recv(d0.ep0, 6, NoCallback)), true);
      VendorReplies(d, get, line, d0, d.config);
    } else {
      VendorRefuses(d, put, line);
      VendorRefuses(d, get, line);
    }
  }

  /** ATUSB_ID: major and minor version 0 and 1; ATUSB_BUILD: all of the build
      string or nothing. */
  lemma IdentityRequests(d: Device, line: Inputs, value: u16, index: u16, length: u16)
    requires Sound(d) && d.handler.MySetup?
    ensures var r := SetupRequest(0xc0, 0x00, value, index, length);
            if length <= 2 then Answers(d, r, line, d, [0, 1][..length], NoCallback) else Refuses(d, r, line)
    ensures var r := SetupRequest(0xc0, 0x01, value, index, length); var reply := BuildString.Reply(d.buildNumber, d.buildDate);
            if |reply| <= length then Answers(d, r, line, d, reply, NoCallback) else Refuses(d, r, line)
  {
    var id, build := SetupRequest(0xc0, 0x00, value, index, length), SetupRequest(0xc0, 0x01, value, index, length);
    var d0, reply := d.(ep0 := Cancel(d.ep0)), BuildString.Reply(d.buildNumber, d.buildDate);
    if length <= 2 {
      VendorReplies(d, id, line, d0, [0, 1][..length]);
    } else {
      VendorRefuses(d, id, line);
    }
    if |reply| <= length {
      VendorReplies(d, build, line, d0, reply);
    } else {
      VendorRefuses(d, build, line);
    }
  }

  /** ATUSB_REG_WRITE and ATUSB_REG_READ take the register from the lower byte of
      wIndex, the value from that of wValue. */
  lemma RegisterRequests(d: Device, line: Inputs, value: u16, index: u16, length: u16)
    requires Sound(d) && d.handler.MySetup?
    ensures Acknowledges(d, SetupRequest(0x40, 0x20, value, index, length), line,
                         d.(bus := d.bus + [RegWrite((index % 0x100) as byte, (value % 0x100) as byte)]))
    ensures Answers(d, SetupRequest(0xc0, 0x21, value, index, length), line,
                    d.(bus := d.bus + [RegRead((index % 0x100) as byte)]), [line.reg], NoCallback)
  {
    var d0 := d.(ep0 := Cancel(d.ep0));
    VendorAccepts(d, SetupRequest(0x40, 0x20, value, index, length), line,
                  d0.(bus := d.bus + [RegWrite((index % 0x100) as byte, (value % 0x100) as byte)]));
    VendorReplies(d, SetupRequest(0xc0, 0x21, value, index, length), line,
                  d0.(bus := d.bus + [RegRead((index % 0x100) as byte)]), [line.reg]);
  }

  /** One byte of the request, or two. */
  function FirstBytes(value: u16, index: u16, two: bool): seq<byte> {
    if two then [(value % 0x100) as byte, (index % 0x100) as byte] else [(value % 0x100) as byte]
  }

  /** ATUSB_SPI_READ1 and ATUSB_SPI_READ2: one or two bytes out, then as many as
      asked for in. */
  lemma SpiReadRequests(d: Device, line: Inputs, value: u16, index: u16, length: u16, two: bool)
    requires Sound(d) && d.handler.MySetup? && length <= 64
    ensures var head := FirstBytes(value, index, two);
            Answers(d, SetupRequest(0xc0, if two then 0x33 else 0x32, value, index, length), line,
                    d.(bus := d.bus + [Spi(head + seq(length, _ => 0xff))]), LineReads(line.miso, length), NoCallback)
  {
    var r := SetupRequest(0xc0, if two then 0x33 else 0x32, value, index, length);
    var head := FirstBytes(value, index, two);
    assert LineReads([], length) == seq(length, _ => 0xff);
    assert Head(r) == head;
    VendorReplies(d, r, line, d.(ep0 := Cancel(d.ep0), bus := d.bus + [Spi(head + LineReads([], length))]), LineReads(line.miso, length));
  }

  lemma SpiWriteWaits(d: Device, r: SetupRequest, line: Inputs)
    requires Sound(d) && d.handler.MySetup? && SpiWrite(r) && SpiSize(r) <= 64 && r.wLength > 0
    ensures Awaits(d, r, line, r.wLength % 0x100, DoBufWrite(Head(r)))
  {
    var d0 := d.(ep0 := Cancel(d.ep0));
    var m := d0.(ep0 := Recv(d0.ep0, r.wLength % 0x100, DoBufWrite(Head(r))));
    Vendor(d, r, line, m, true);
    SetupParts(d, r, line, m, true);
  }

  lemma SpiWriteAtOnce(d: Device, r: SetupRequest, line: Inputs)
    requires Sound(d) && d.handler.MySetup? && SpiWrite(r) && r.wLength == 0
    ensures Acknowledges(d, r, line, d.(bus := d.bus + [Spi(Head(r))]))
  {
    VendorAccepts(d, r, line, d.(ep0 := Cancel(d.ep0), bus := d.bus + [Spi(Head(r))]));
  }

  /** ATUSB_SPI_WRITE1 and ATUSB_SPI_WRITE2 without data send the bytes of the
      request at once; with data they wait for it; if it is too long for `buf`
      by the count in eight bits, they are refused. */
  lemma SpiWriteRequests(d: Device, line: Inputs, value: u16, index: u16, length: u16, two: bool)
    requires Sound(d) && d.handler.MySetup?
    ensures var head := FirstBytes(value, index, two);
            var r := SetupRequest(0x40, if two then 0x31 else 0x30, value, index, length);
            if (length + |head|) % 0x100 > 64 then Refuses(d, r, line)
            else if length > 0 then Awaits(d, r, line, length % 0x100, DoBufWrite(head))
            else Acknowledges(d, r, line, d.(bus := d.bus + [Spi(head)]))
  {
    var r := SetupRequest(0x40, if two then 0x31 else 0x30, value, index, length);
    assert Head(r) == FirstBytes(value, index, two);
    if SpiSize(r) > 64 {
      VendorRefuses(d, r, line);
    } else if length > 0 {
      SpiWriteWaits(d, r, line);
    } else {
      SpiWriteAtOnce(d, r, line);
    }
  }

  /** ATUSB_GPIO reports the three registers of port B, C or D; ATUSB_RESET does
      not come back. */
  lemma PortRequests(d: Device, line: Inputs, value: u16, index: u16, length: u16)
    requires Sound(d) && d.handler.MySetup?
    ensures var r := SetupRequest(0xc0, 0x10, value, index, length);
            if length >= 3 && 1 <= index % 0x100 <= 3 then Answers(d, r, line, d, line.pins, NoCallback) else Refuses(d, r, line)
    ensures OnSetup(d, SetupRequest(0x40, 0x02, value, index, length), line).restarting
  {
    var r, reset := SetupRequest(0xc0, 0x10, value, index, length), SetupRequest(0x40, 0x02, value, index, length);
    var d0 := d.(ep0 := Cancel(d.ep0));
    if length >= 3 && 1 <= index % 0x100 <= 3 {
      VendorReplies(d, r, line, d0, line.pins);
    } else {
      VendorRefuses(d, r, line);
    }
    VendorAccepts(d, reset, line, d0.(restarting := true));
  }

  // ----- the DFU requests of the running firmware ------------------------------------------

  /** DFU_DETACH, and the bus reset that then restarts into the boot loader. */
  lemma DetachRequest(d: Device, line: Inputs, value: u16, index: u16, length: u16)
    requires Sound(d) && d.handler.MyDfuSetup? && !d.restarting
    ensures var r := SetupRequest(0x21, 0, value, index, length); var t := OnSetup(d, r, line);
            Acknowledges(d, r, line, d.(dfuState := appDETACH)) && Ready(t) && Step(t, BusReset).restarting
  {
    var r, m := SetupRequest(0x21, 0, value, index, length), d.(ep0 := Cancel(d.ep0), dfuState := appDETACH);
    DfuHandler(d, r, line, m, true);
    Ends(d, r, line, m, true);
  }

  /** DFU_CLRSTATUS, DFU_GETSTATUS and DFU_GETSTATE: bStatus, 100 ms, bState and
      iString, with the numbers of section 6.1.2 of USB DFU 1.1. */
  lemma StatusRequests(d: Device, line: Inputs, value: u16, index: u16, length: u16) returns (reply: seq<byte>)
    requires Sound(d) && d.handler.MyDfuSetup?
    ensures Acknowledges(d, SetupRequest(0x21, 4, value, index, length), line, d.(dfuState := dfuIDLE, dfuStatus := 0))
    ensures Answers(d, SetupRequest(0xa1, 3, value, index, length), line, d, reply, NoCallback)
    ensures |reply| == 6 && reply[0] == d.dfuStatus && reply[5] == 0
    ensures reply[1] as int + 0x100 * reply[2] as int + 0x1_0000 * reply[3] as int == 100
    ensures (reply[4] == 0 <==> d.dfuState.appIDLE?) && (reply[4] == 1 <==> d.dfuState.appDETACH?) && (reply[4] == 2 <==> d.dfuState.dfuIDLE?)
    ensures Answers(d, SetupRequest(0xa1, 5, value, index, length), line, d, [reply[4]], NoCallback)
  {
    var clear, get := SetupRequest(0x21, 4, value, index, length), SetupRequest(0xa1, 3, value, index, length);
    var state := SetupRequest(0xa1, 5, value, index, length);
    var d0, code := d.(ep0 := Cancel(d.ep0)), StateCode(d.dfuState);
    reply := [d.dfuStatus, 100, 0, 0, code, 0];
    DfuHandler(d, clear, line, d0.(dfuState := dfuIDLE, dfuStatus := 0), true);
    Ends(d, clear, line, d0.(dfuState := dfuIDLE, dfuStatus := 0), true);
    DfuHandler(d, get, line, Replied(d0, reply).0, true);
    Sends(d, get, line, Replied(d0, reply).0, reply, NoCallback);
    DfuHandler(d, state, line, Replied(d0, [code]).0, true);
    Sends(d, state, line, Replied(d0, [code]).0, [code], NoCallback);
  }

  // ----- data stages ------------------------------------------------------------------------

  /** A data stage to the device: the packet that completes it is acknowledged by
      an empty one, a packet that does not fit or that nobody waits for
      stalls and leaves EP0 idle. */
  lemma DataStageEnds(d: Device, packet: seq<byte>)
    requires Sound(d) && !d.restarting
    ensures var t := Step(d, Out(packet));
            match d.ep0.xfer
            case Receiving(_, room, _) =>
              (|packet| == room ==> Delivers(t.ep0, [], NoCallback)) && (|packet| > room ==> t == d.(ep0 := Cancel(d.ep0)))
            case _ => t == d.(ep0 := Cancel(d.ep0))
  {
    SendDelivers(Cancel(d.ep0), [], NoCallback);
  }

  function Ins(n: nat): seq<Event> {
    seq(n, i requires 0 <= i < n => In)
  }

  /** What Drain says an endpoint sends takes as many IN interrupts of EP0, which
      then is idle; nothing else changes. */
  lemma {:induction false} InsDrain(d: Device)
    requires Sound(d) && !d.restarting && d.ep0.xfer.Sending?
    ensures Exec(d, Ins(|Drain(d.ep0)|)) == d.(ep0 := Cancel(d.ep0))
    decreases |d.ep0.xfer.rest|
  {
    var t, ins := Step(d, In), Ins(|Drain(d.ep0)|);
    ExecHead(d, ins);
    if InPacket(d.ep0).More? {
      assert ins[1..] == Ins(|Drain(t.ep0)|);
      InsDrain(t);
    } else {
      assert ins[1..] == [];
      assert Exec(t, []) == t;
    }
  }

  /** A stall received or a bus reset ends any transfer on EP0; so does, before it
      is served, a new request. */
  lemma TransferEnds(d: Device, r: SetupRequest, line: Inputs)
    requires Sound(d) && !d.restarting
    ensures Step(d, Stalled) == d.(ep0 := Cancel(d.ep0))
    ensures !d.dfuState.appDETACH? ==> Step(d, BusReset).ep0 == Cancel(d.ep0)
    ensures OnSetup(d, r, line) == OnSetup(Step(d, Stalled), r, line)
  {
  }
}
