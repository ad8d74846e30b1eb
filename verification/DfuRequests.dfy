/** What the boot loader answers, request by request: from the bytes of the SETUP
    packet to the bytes the host gets on EP0, and what the request changes. */
module DfuRequests {
  import opened Wire
  import opened Endpoint
  import opened UsbRequests
  import opened FlashSpec
  import opened DfuSpec
  import opened DfuInvariant

  predicate Sound(l: Loader) {
    Ready(l) && !l.ep0.bug && l.ep0.size == EP0_SIZE && !l.ep0.truncate
  }

  /** A stall, and nothing else has happened. */
  predicate Refuses(l: Loader, r: SetupRequest)
    requires Ready(l)
  {
    Stalls(l, Setup(r)) && OnSetup(l, r) == l.(ep0 := Cancel(l.ep0))
  }

  /** The host gets `data`, and the loader becomes `m`. */
  ghost predicate Answers(l: Loader, r: SetupRequest, m: Loader, data: seq<byte>, callback: Callback)
    requires Ready(l)
  {
    var t := OnSetup(l, r);
    !Stalls(l, Setup(r)) && t == m.(ep0 := t.ep0) && Delivers(t.ep0, data, callback)
  }

  /** The empty packet of the status stage. */
  ghost predicate Acknowledges(l: Loader, r: SetupRequest, m: Loader)
    requires Ready(l)
  {
    Answers(l, r, m, [], NoCallback)
  }

  lemma Serves(l: Loader, r: SetupRequest)
    requires Sound(l)
    ensures var a := Standard(l.desc, r);
            && (a.Refuse? ==> Refuses(l, r))
            && (a.Reply? ==> Answers(l, r, l, a.data, NoCallback))
            && (a.SetAddress? ==> Answers(l, r, l, [], EnableAddr))
            && ((a.Accept? || a.SelectInterface?) && r.bmRequestType < 0x80 ==> Acknowledges(l, r, l))
  {
    var idle := Cancel(l.ep0);
    SendDelivers(idle, [], NoCallback);
    SendDelivers(idle, [], EnableAddr);
    if Standard(l.desc, r).Reply? {
      SendDelivers(idle, Standard(l.desc, r).data, NoCallback);
    }
  }

  /** Enumeration: the host gets the first wLength bytes of the descriptor it asks
      for, and is refused if and only if there is none. */
  lemma GetDescriptorRequest(l: Loader, kind: u8, index: u8, language: u16, length: u16)
    requires Sound(l)
    ensures var r := SetupRequest(0x80, 6, 0x100 * kind + index, language, length);
            && (forall whole | Describes(l.desc, kind, index, whole) ::
                  Answers(l, r, l, whole[..Min(|whole|, length)], NoCallback))
            && (Refuses(l, r) <==> forall whole :: !Describes(l.desc, kind, index, whole))
  {
    var r := SetupRequest(0x80, 6, 0x100 * kind + index, language, length);
    DescriptorAnswer(l.desc, kind, index, language, length);
    Serves(l, r);
  }

  /** SET_ADDRESS, GET_STATUS, CLEAR_FEATURE, GET_CONFIGURATION and
      SET_CONFIGURATION of the device: the last one accepts the value in the
      sixth byte of the configuration descriptor and no other. */
  lemma DeviceRequests(l: Loader, value: u16, index: u16, length: u16)
    requires Sound(l)
    ensures Answers(l, SetupRequest(0, 5, value, index, length), l, [], EnableAddr)
    ensures var r := SetupRequest(0x80, 0, value, index, length);
            if length == 2 then Answers(l, r, l, [0, 0], NoCallback) else Refuses(l, r)
    ensures Acknowledges(l, SetupRequest(0, 1, value, index, length), l)
    ensures Answers(l, SetupRequest(0x80, 8, value, index, length), l, [0], NoCallback)
    ensures var r := SetupRequest(0, 9, value, index, length);
            if value == l.desc.config[5] as int then Acknowledges(l, r, l) else Refuses(l, r)
  {
    Serves(l, SetupRequest(0, 5, value, index, length));
    Serves(l, SetupRequest(0x80, 0, value, index, length));
    Serves(l, SetupRequest(0, 1, value, index, length));
    Serves(l, SetupRequest(0x80, 8, value, index, length));
    Serves(l, SetupRequest(0, 9, value, index, length));
  }

  /** SET_INTERFACE changes nothing here; it is accepted if some descriptor of the
      chain matches. */
  lemma InterfaceRequest(l: Loader, value: u16, index: u16, length: u16)
    requires Sound(l)
    ensures var r := SetupRequest(1, 11, value, index, length);
            if InChain(l.desc.config, value, index) then Acknowledges(l, r, l) else Refuses(l, r)
  {
    InChainIff(l.desc.config, value, index);
    Serves(l, SetupRequest(1, 11, value, index, length));
  }

  const DFU_REQUESTS: set<(u8, u8)> := {(0x21, 0), (0x21, 1), (0xa1, 2), (0xa1, 3), (0x21, 4), (0xa1, 5), (0x21, 6)}

  /** No other request is understood. */
  lemma OtherRequests(l: Loader, r: SetupRequest)
    requires Sound(l) && (r.bmRequestType, r.bRequest) !in SERVED + DFU_REQUESTS
    ensures Refuses(l, r)
  {
    ApplicationIff(l.desc, r);
    Serves(l, r);
    if (r.bmRequestType, r.bRequest) !in REFUSED {
      assert Classify(r) == Other;
    }
  }

  lemma Common(l: Loader, r: SetupRequest)
    requires Sound(l) && (r.bmRequestType, r.bRequest) in DFU_REQUESTS
    ensures Standard(l.desc, r) == Application
  {
    ApplicationIff(l.desc, r);
  }

  /** DFU_GETSTATUS, section 6.1.2 of USB DFU 1.1: bStatus, 100 ms in three bytes,
      bState, iString, with the numbers of that section. DFU_GETSTATE: bState. */
  lemma StatusRequests(l: Loader, value: u16, index: u16, length: u16) returns (reply: seq<byte>)
    requires Sound(l)
    ensures Answers(l, SetupRequest(0xa1, 3, value, index, length), l, reply, NoCallback)
    ensures |reply| == 6 && reply[1] as int + 0x100 * reply[2] as int + 0x1_0000 * reply[3] as int == 100 && reply[5] == 0
    ensures (reply[0] == 0x00 <==> l.status == OK) && (reply[0] == 0x08 <==> l.status == errADDRESS) && (reply[0] == 0x0e <==> l.status == errUNKNOWN)
    ensures (reply[4] == 2 <==> l.state == dfuIDLE) && (reply[4] == 5 <==> l.state == dfuDNLOAD_IDLE)
    ensures (reply[4] == 9 <==> l.state == dfuUPLOAD_IDLE) && (reply[4] == 10 <==> l.state == dfuERROR)
    ensures Answers(l, SetupRequest(0xa1, 5, value, index, length), l, [reply[4]], NoCallback)
  {
    reply := StatusBytes(l);
    Common(l, SetupRequest(0xa1, 3, value, index, length));
    Common(l, SetupRequest(0xa1, 5, value, index, length));
    SendDelivers(Cancel(l.ep0), reply, NoCallback);
    SendDelivers(Cancel(l.ep0), [StateCode(l.state)], NoCallback);
  }

  lemma Accepted(l: Loader, r: SetupRequest, m: Loader)
    requires Sound(l) && (r.bmRequestType, r.bRequest) in DFU_REQUESTS && r.bmRequestType == 0x21
    requires MySetup(l.(ep0 := Cancel(l.ep0)), r) == (m.(ep0 := Cancel(l.ep0)), true)
    ensures Acknowledges(l, r, m)
  {
    Common(l, r);
    SendDelivers(Cancel(l.ep0), [], NoCallback);
  }

  /** DFU_CLRSTATUS and DFU_ABORT make any state dfuIDLE without an error,
      DFU_DETACH is accepted and ignored. */
  lemma ClearingRequests(l: Loader, value: u16, index: u16, length: u16)
    requires Sound(l)
    ensures Acknowledges(l, SetupRequest(0x21, 4, value, index, length), l.(state := dfuIDLE, status := OK))
    ensures Acknowledges(l, SetupRequest(0x21, 6, value, index, length), l.(state := dfuIDLE, status := OK))
    ensures Acknowledges(l, SetupRequest(0x21, 0, value, index, length), l)
  {
    Accepted(l, SetupRequest(0x21, 4, value, index, length), l.(state := dfuIDLE, status := OK));
    Accepted(l, SetupRequest(0x21, 6, value, index, length), l.(state := dfuIDLE, status := OK));
    Accepted(l, SetupRequest(0x21, 0, value, index, length), l);
  }

  /** Transfers are refused outside their states. */
  lemma OutOfState(l: Loader, value: u16, index: u16, length: u16)
    requires Sound(l)
    ensures l.state != dfuIDLE && l.state != dfuDNLOAD_IDLE ==> Refuses(l, SetupRequest(0x21, 1, value, index, length))
    ensures l.state != dfuIDLE && l.state != dfuUPLOAD_IDLE ==> Refuses(l, SetupRequest(0xa1, 2, value, index, length))
  {
    Common(l, SetupRequest(0x21, 1, value, index, length));
    Common(l, SetupRequest(0xa1, 2, value, index, length));
  }

  /** A DFU_UPLOAD of more than one EP0 packet is not refused, nor is it answered:
      the state is that of an upload under way, the block counter advances,
      only the status tells, and the host waits for data that never comes. */
  lemma UploadTooLong(l: Loader, value: u16, index: u16, length: u16)
    requires Sound(l) && length > 64
    requires l.state == dfuIDLE || (l.state == dfuUPLOAD_IDLE && value == l.nextBlock)
    ensures var r := SetupRequest(0xa1, 2, value, index, length); var t := OnSetup(l, r);
            && !Stalls(l, Setup(r)) && t.ep0.xfer.Idle?
            && t.state == dfuUPLOAD_IDLE && t.status == errUNKNOWN && t.nextBlock == (value + 1) % 0x1_0000
            && t.writer == (if l.state == dfuIDLE then Start(l.writer) else l.writer)
  {
    Common(l, SetupRequest(0xa1, 2, value, index, length));
  }

  /** A data stage to the loader: the packet that completes it is acknowledged by
      an empty one, a packet that does not fit or that nobody waits for
      stalls and leaves EP0 idle. */
  lemma DataStageEnds(l: Loader, packet: seq<byte>)
    requires Sound(l) && !l.restarting
    ensures var t := Step(l, Out(packet));
            match l.ep0.xfer
            case Receiving(_, room, _) =>
              (|packet| == room ==> Delivers(t.ep0, [], NoCallback)) &&
              (|packet| > room ==> t == l.(ep0 := Cancel(l.ep0)) && Stalls(l, Out(packet)))
            case _ => t == l.(ep0 := Cancel(l.ep0)) && Stalls(l, Out(packet))
  {
    SendDelivers(Cancel(l.ep0), [], NoCallback);
  }

  function Ins(n: nat): seq<Event> {
    seq(n, i requires 0 <= i < n => In)
  }

  /** What Drain says an endpoint sends takes as many IN interrupts of EP0, which
      then is idle; nothing else changes. */
  lemma {:induction false} InsDrain(l: Loader)
    requires Sound(l) && !l.restarting && l.ep0.xfer.Sending?
    ensures Exec(l, Ins(|Drain(l.ep0)|)) == l.(ep0 := Cancel(l.ep0))
    decreases |l.ep0.xfer.rest|
  {
    var t, ins := Step(l, In), Ins(|Drain(l.ep0)|);
    assert Exec(l, ins) == Exec(t, ins[1..]);
    if InPacket(l.ep0).More? {
      assert ins[1..] == Ins(|Drain(t.ep0)|);
      InsDrain(t);
    } else {
      assert ins[1..] == [];
      assert Exec(t, []) == t;
    }
  }

  /** A stall received ends any transfer on EP0; so does a bus reset, unless a
      download has been completed, and, before it is served, a new request. */
  lemma TransferEnds(l: Loader, r: SetupRequest)
    requires Sound(l) && !l.restarting
    ensures Step(l, Stalled) == l.(ep0 := Cancel(l.ep0))
    ensures Step(l, BusReset) == if l.didDownload then l.(restarting := true) else l.(ep0 := Cancel(l.ep0))
    ensures OnSetup(l, r) == OnSetup(Step(l, Stalled), r)
  {
  }

  /** The block that reaches the end of flash is short, and block_transmit goes back
      to dfuIDLE as the protocol wants it; but the state is overwritten, and
      the loader stays in an upload that has ended. */
  lemma ShortBlockStaysInUpload(l: Loader, value: u16, index: u16, length: u16)
    requires Sound(l) && l.state == dfuUPLOAD_IDLE && value == l.nextBlock && length <= 64
    requires l.writer.payload + length > FLASH_SIZE
    ensures BlockTransmit(l.(ep0 := Cancel(l.ep0)), length).0.state == dfuIDLE
    ensures OnSetup(l, SetupRequest(0xa1, 2, value, index, length)).state == dfuUPLOAD_IDLE
  {
    Common(l, SetupRequest(0xa1, 2, value, index, length));
  }
}
