/** The boot loader as an interrupt-driven machine: bootloader/usb/dfu.c and
    dfu_common.c on top of flash.c, driven by the EP0 code of
    bootloader/usb/atu2.c. */
module DfuSpec {
  import opened Wire
  import opened Endpoint
  import opened FlashSpec
  import opened UsbRequests

  /** enum dfu_state */
  datatype DfuState =
    | appIDLE | appDETACH | dfuIDLE | dfuDNLOAD_SYNC | dfuDNBUSY | dfuDNLOAD_IDLE | dfuMANIFEST_SYNC
    | dfuMANIFEST | dfuMANIFEST_WAIT_RESET | dfuUPLOAD_IDLE | dfuERROR

  /** The members of enum dfu_status that are ever assigned. */
  datatype DfuStatus = OK | errADDRESS | errUNKNOWN

  function StateCode(s: DfuState): byte {
    match s
    case appIDLE => 0 case appDETACH => 1 case dfuIDLE => 2 case dfuDNLOAD_SYNC => 3 case dfuDNBUSY => 4
    case dfuDNLOAD_IDLE => 5 case dfuMANIFEST_SYNC => 6 case dfuMANIFEST => 7 case dfuMANIFEST_WAIT_RESET => 8
    case dfuUPLOAD_IDLE => 9 case dfuERROR => 10
  }

  function StatusCode(s: DfuStatus): byte {
    match s
    case OK => 0 case errADDRESS => 8 case errUNKNOWN => 14
  }

  const EP0_SIZE := 64

  /** `restarting` is the endless loop of my_reset after a download, left by
      the watchdog. `desc` is descriptor memory. */
  datatype Loader = Loader(
    state: DfuState,
    status: DfuStatus,
    nextBlock: u16,
    didDownload: bool,
    writer: Writer,
    ep0: Ep,
    desc: Descriptors,
    restarting: bool)

  predicate PowerUp(l: Loader) {
    l.state == dfuIDLE && l.status == OK && l.nextBlock == 0 && !l.didDownload && !l.restarting &&
    l.writer.payload == 0 && ValidChip(l.writer.chip) && l.writer.chip.log == [] &&
    l.ep0 == Ep(Idle, false, EP0_SIZE, false) && ValidDescriptors(l.desc)
  }

  // ----- requests ------------------------------------------------------------------

  const DFU_OUT: u8 := 0x21
  const DFU_IN: u8 := 0xa1

  datatype DfuRequest = DETACH | DNLOAD | UPLOAD | GETSTATUS | CLRSTATUS | GETSTATE | ABORT | Other

  function Classify(r: SetupRequest): DfuRequest {
    match (r.bmRequestType, r.bRequest)
    case (0x21, 0) => DETACH
    case (0x21, 1) => DNLOAD
    case (0xa1, 2) => UPLOAD
    case (0xa1, 3) => GETSTATUS
    case (0x21, 4) => CLRSTATUS
    case (0xa1, 5) => GETSTATE
    case (0x21, 6) => ABORT
    case _ => Other
  }

  /** next_block - 1 and next_block + 1 in the 16-bit arithmetic of the AVR. */
  function Before(block: u16): u16 {
    if block == 0 then 0xffff else block - 1
  }

  function After(block: u16): u16 {
    if block == 0xffff then 0 else block + 1
  }

  function Fail(l: Loader, status: DfuStatus): Loader {
    l.(state := dfuERROR, status := status)
  }

  /** block_receive */
  function BlockReceive(l: Loader, length: u16): (Loader, bool) {
    if !CanWrite(l.writer, length) then (Fail(l, errADDRESS), false)
    else if length > EP0_SIZE then (Fail(l, errUNKNOWN), false)
    else (l.(ep0 := Recv(l.ep0, length, BlockWrite)), true)
  }

  predicate CanRead(l: Loader) {
    l.writer.payload <= FLASH_SIZE == |l.writer.chip.flash|
  }

  /** block_transmit */
  function BlockTransmit(l: Loader, length: u16): (Loader, bool)
    requires CanRead(l)
  {
    if length > EP0_SIZE then (Fail(l, errUNKNOWN), true)
    else
      var (writer, bytes) := Read(l.writer, length);
      var l1 := l.(writer := writer, state := if |bytes| < length then dfuIDLE else l.state);
      (l1.(ep0 := Send(l1.ep0, bytes, NoCallback)), true)
  }

  /** DFU_DNLOAD in my_setup. Note that the state assigned last wins over the
      error state block_receive may have set. */
  function Download(l: Loader, r: SetupRequest): (Loader, bool)
    requires l.writer.chip.page > 0
  {
    if l.state != dfuIDLE && l.state != dfuDNLOAD_IDLE then (l, false)
    else
      var l1 := if l.state == dfuIDLE then l.(nextBlock := r.wValue, writer := Start(l.writer)) else l;
      if l1.state != dfuIDLE && r.wValue == Before(l1.nextBlock) then (l1, true)
      else if r.wValue != l1.nextBlock then (Fail(l1, errUNKNOWN), true)
      else if r.wLength == 0 then (l1.(writer := EndWrite(l1.writer), state := dfuIDLE, didDownload := true), true)
      else
        var (l2, ok) := BlockReceive(l1, r.wLength);
        (l2.(nextBlock := After(l2.nextBlock), state := dfuDNLOAD_IDLE), ok)
  }

  /** DFU_UPLOAD in my_setup */
  function Upload(l: Loader, r: SetupRequest): (Loader, bool)
    requires l.state == dfuUPLOAD_IDLE ==> CanRead(l)
    requires |l.writer.chip.flash| == FLASH_SIZE
  {
    if l.state != dfuIDLE && l.state != dfuUPLOAD_IDLE then (l, false)
    else
      var l1 := if l.state == dfuIDLE then l.(nextBlock := r.wValue, writer := Start(l.writer)) else l;
      if l1.state != dfuIDLE && r.wValue == Before(l1.nextBlock) then (Fail(l1, errUNKNOWN), true)
      else if r.wValue != l1.nextBlock then (Fail(l1, errUNKNOWN), true)
      else
        var (l2, ok) := BlockTransmit(l1, r.wLength);
        (l2.(nextBlock := After(l2.nextBlock), state := dfuUPLOAD_IDLE), ok)
  }

  /** What the code relies on whenever a request arrives. */
  predicate Ready(l: Loader) {
    ValidChip(l.writer.chip) && ValidDescriptors(l.desc) && (l.state == dfuUPLOAD_IDLE ==> CanRead(l))
  }

  /** The six bytes of struct dfu. */
  function StatusBytes(l: Loader): seq<byte> {
    [StatusCode(l.status), 100, 0, 0, StateCode(l.state), 0]
  }

  /** my_setup and dfu_setup_common */
  function MySetup(l: Loader, r: SetupRequest): (Loader, bool)
    requires Ready(l)
  {
    match Classify(r)
    case DETACH => (l, true)
    case DNLOAD => Download(l, r)
    case UPLOAD => Upload(l, r)
    case ABORT => (l.(state := dfuIDLE, status := OK), true)
    case CLRSTATUS => (l.(state := dfuIDLE, status := OK), true)
    case GETSTATUS => (l.(ep0 := Send(l.ep0, StatusBytes(l), NoCallback)), true)
    case GETSTATE => (l.(ep0 := Send(l.ep0, [StateCode(l.state)], NoCallback)), true)
    case Other => (l, false)
  }

  /** handle_setup; the boot loader has no user_set_interface. */
  function HandleSetup(l: Loader, r: SetupRequest): (Loader, bool)
    requires Ready(l)
  {
    match Standard(l.desc, r)
    case Refuse => (l, false)
    case Accept => (l, true)
    case Reply(data) => (l.(ep0 := Send(l.ep0, data, NoCallback)), true)
    case SetAddress => (l.(ep0 := Send(l.ep0, [], EnableAddr)), true)
    case SelectInterface(_) => (l, true)
    case Application => MySetup(l, r)
  }

  // ----- EP0 interrupts ----------------------------------------------------------------

  /** One interrupt cause of EP0, or the end of a bus reset. */
  datatype Event =
    | Setup(request: SetupRequest)
    | Out(packet: seq<byte>)
    | Stalled
    | In
    | BusReset

  function ControlOut(r: SetupRequest): bool {
    r.bmRequestType < 0x80
  }

  /** A refused request stalls; one without data stage gets its status stage. */
  function AfterSetup(l: Loader, r: SetupRequest, ok: bool): Loader {
    if !ok then l.(ep0 := Cancel(l.ep0))
    else if ControlOut(r) && l.ep0.xfer.Idle? then l.(ep0 := Send(l.ep0, [], NoCallback))
    else l
  }

  function OnSetup(l: Loader, r: SetupRequest): Loader
    requires Ready(l)
  {
    var (l1, ok) := HandleSetup(l.(ep0 := Cancel(l.ep0)), r);
    AfterSetup(l1, r, ok)
  }

  /** ep_rx: on completion the callback runs, then EP0 sends the status stage. */
  function OnOut(l: Loader, packet: seq<byte>): Loader
    requires l.writer.chip.page > 0
  {
    match OutPacket(l.ep0, packet)
    case Stall(ep) => l.(ep0 := ep)
    case Stored(ep) => l.(ep0 := ep)
    case Complete(ep, data, callback) =>
      var l1 := l.(ep0 := ep, writer := if callback.BlockWrite? then WriteAll(l.writer, data) else l.writer);
      l1.(ep0 := Send(l1.ep0, [], NoCallback))
  }

  function OnIn(l: Loader): Loader {
    l.(ep0 := InPacket(l.ep0).ep)
  }

  function Step(l: Loader, e: Event): Loader
    requires Ready(l)
  {
    if l.restarting then l
    else
      match e
      case Setup(r) => OnSetup(l, r)
      case Out(packet) => OnOut(l, packet)
      case Stalled => l.(ep0 := Cancel(l.ep0))
      case In => OnIn(l)
      case BusReset => if l.didDownload then l.(restarting := true) else l.(ep0 := Cancel(l.ep0))
  }

  /** Whether serving a cause ends at the stall label. */
  predicate Stalls(l: Loader, e: Event)
    requires Ready(l)
  {
    match e
    case Setup(r) => !HandleSetup(l.(ep0 := Cancel(l.ep0)), r).1
    case Out(packet) => OutPacket(l.ep0, packet).Stall?
    case _ => false
  }

  /** The causes pending when handle_ep is entered, in the order it serves
      them. */
  function Causes(setup: seq<SetupRequest>, out: seq<seq<byte>>, stalled: bool, txin: bool): seq<Event>
    requires |setup| <= 1 && |out| <= 1
  {
    (if setup != [] then [Setup(setup[0])] else []) + (if out != [] then [Out(out[0])] else []) +
    (if stalled then [Stalled] else []) + if txin then [In] else []
  }

  /** handle_ep: a stall drops the causes behind it. */
  function HandleEp(l: Loader, causes: seq<Event>): Loader
    decreases |causes|
  {
    if causes == [] || !Ready(l) then l
    else if Stalls(l, causes[0]) then Step(l, causes[0])
    else HandleEp(Step(l, causes[0]), causes[1..])
  }

  lemma SetupParts(l: Loader, r: SetupRequest, l1: Loader, ok: bool)
    requires Ready(l) && (l1, ok) == HandleSetup(l.(ep0 := Cancel(l.ep0)), r)
    ensures OnSetup(l, r) == AfterSetup(l1, r, ok) && l1.restarting == l.restarting
    ensures Stalls(l, Setup(r)) == !ok
  {
  }
}
