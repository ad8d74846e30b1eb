/** Control requests of the running firmware: usb.c's dispatch with the handlers
    of firmware/ep0.c behind it, and the EP0 interrupts of firmware/usb/atu2.c. */
module FirmwareEp0 {
  import opened Wire
  import opened Endpoint
  import opened UsbRequests
  import opened BufferSpec
  import BuildString

  const CONFIG_SIZE := 6

  /** PINx, PORTx and DDRx of one port. */
  type Pins = p: seq<byte> | |p| == 3 witness [0, 0, 0]

  /** What the hardware would answer while a request is served: the port, a
      register of the CAN controller, the SPI line (ones when it is idle). */
  datatype Inputs = Inputs(pins: Pins, reg: byte, miso: seq<byte>)

  const QUIET: Inputs := Inputs([0, 0, 0], 0, [])

  function LineReads(miso: seq<byte>, n: nat): (bytes: seq<byte>)
    ensures |bytes| == n
  {
    seq(n, i requires 0 <= i < n => if i < |miso| then miso[i] else 0xff)
  }

  /** What control requests do on the SPI bus. */
  datatype Bus = RegWrite(addr: byte, data: byte) | RegRead(addr: byte) | Spi(mosi: seq<byte>)

  /** user_setup: my_setup or my_dfu_setup */
  datatype Handler = MySetup | MyDfuSetup

  datatype AppState = appIDLE | appDETACH | dfuIDLE

  /** `config` is can_cfg, which a data stage fills in place; `bus` is history;
      `running` follows mcp2515_start and mcp2515_stop; `restarting` is the
      endless loop after reset_cpu. */
  datatype Device = Device(
    ep0: Ep,
    handler: Handler,
    dfuState: AppState,
    dfuStatus: byte,
    config: seq<byte>,
    bus: seq<Bus>,
    buffer: Buffer,
    running: bool,
    restarting: bool,
    desc: Descriptors,
    dfuOther: map<(u8, u8), seq<byte>>,
    buildNumber: u16,
    buildDate: seq<byte>)

  predicate Ready(d: Device) {
    ValidDescriptors(d.desc) && ValidDescriptors(d.desc.(other := d.dfuOther)) && |d.config| == CONFIG_SIZE && |d.buildDate| <= 57
  }

  predicate PowerUp(d: Device) {
    Ready(d) && d.ep0 == Ep(Idle, false, 64, false) && d.handler == MySetup && d.buffer == INITIAL_BUFFER &&
    d.bus == [] && !d.running && !d.restarting
  }

  function Replied(d: Device, data: seq<byte>): (Device, bool) {
    (d.(ep0 := Send(d.ep0, data, NoCallback)), true)
  }

  function Low8(x: u16): byte {
    (x % 0x100) as byte
  }

  /** What ATUSB_SPI_WRITE1 and ATUSB_SPI_WRITE2, ATUSB_SPI_READ1 and
      ATUSB_SPI_READ2 put in front of the data. */
  function Head(r: SetupRequest): (head: seq<byte>)
    ensures 1 <= |head| <= 2
  {
    if r.bRequest == 0x30 || r.bRequest == 0x32 then [Low8(r.wValue)] else [Low8(r.wValue), Low8(r.wIndex)]
  }

  predicate SpiWrite(r: SetupRequest) {
    r.bmRequestType == 0x40 && (r.bRequest == 0x30 || r.bRequest == 0x31)
  }

  predicate SpiRead(r: SetupRequest) {
    r.bmRequestType == 0xc0 && (r.bRequest == 0x32 || r.bRequest == 0x33)
  }

  /** `size` of the SPI write requests, in 8 bits. */
  function SpiSize(r: SetupRequest): nat {
    (r.wLength + |Head(r)|) % 0x100
  }

  /** The SPI requests whose data stays inside `buf`: for a write that is
      accepted, the data behind the bytes of the request; for a read all of
      it. */
  predicate Sane(r: SetupRequest) {
    (SpiWrite(r) && SpiSize(r) <= 64 ==> |Head(r)| + r.wLength % 0x100 <= 64) && (SpiRead(r) ==> r.wLength <= 64)
  }

  /** The others are the reads that are too long, and the writes for which
      `size` wraps around. */
  lemma SaneIff(r: SetupRequest)
    ensures Sane(r) <==>
            (SpiWrite(r) ==> r.wLength % 0x100 + |Head(r)| < 0x100) && (SpiRead(r) ==> r.wLength <= 64)
  {
    assert SpiSize(r) == if r.wLength % 0x100 + |Head(r)| < 0x100 then r.wLength % 0x100 + |Head(r)|
                         else r.wLength % 0x100 + |Head(r)| - 0x100;
  }

  /** The raw register and SPI requests; faithful for those that are sane. */
  function BusSetup(d: Device, r: SetupRequest, line: Inputs): (Device, bool) {
    if SpiWrite(r) then
      if SpiSize(r) > 64 then (d, false)
      else if r.wLength > 0 then (d.(ep0 := Recv(d.ep0, r.wLength % 0x100, DoBufWrite(Head(r)))), true)
      else (d.(bus := d.bus + [Spi(Head(r))]), true)
    else if SpiRead(r) then
      Replied(d.(bus := d.bus + [Spi(Head(r) + LineReads([], r.wLength))]), LineReads(line.miso, r.wLength))
    else if (r.bmRequestType, r.bRequest) == (0x40, 0x20) then
      (d.(bus := d.bus + [RegWrite(Low8(r.wIndex), Low8(r.wValue))]), true)
    else if (r.bmRequestType, r.bRequest) == (0xc0, 0x21) then
      Replied(d.(bus := d.bus + [RegRead(Low8(r.wIndex))]), [line.reg])
    else (d, false)
  }

  /** Identification, reset and port requests. */
  function SystemSetup(d: Device, r: SetupRequest, line: Inputs): (Device, bool) {
    match (r.bmRequestType, r.bRequest)
    case (0xc0, 0x00) => if r.wLength > 2 then (d, false) else Replied(d, [0, 1][..r.wLength])
    case (0xc0, 0x01) =>
      var reply := BuildString.Reply(d.buildNumber, d.buildDate);
      if |reply| > r.wLength then (d, false) else Replied(d, reply)
    case (0x40, 0x02) => (d.(restarting := true), true)
    case (0xc0, 0x10) =>
      if r.wLength < 3 || !(1 <= r.wIndex % 0x100 <= 3) then (d, false) else Replied(d, line.pins)
    case _ => (d, false)
  }

  /** ATUSB_CAN_PUT_CONFIG, ATUSB_CAN_GET_CONFIG, ATUSB_CAN_START, ATUSB_CAN_STOP. */
  function CanSetup(d: Device, r: SetupRequest): (Device, bool) {
    match (r.bmRequestType, r.bRequest)
    case (0x40, 0x40) =>
      if r.wLength != CONFIG_SIZE then (d, false) else (d.(ep0 := Recv(d.ep0, CONFIG_SIZE, NoCallback)), true)
    case (0xc0, 0x41) => if r.wLength != CONFIG_SIZE then (d, false) else Replied(d, d.config)
    case (0x40, 0x42) => (d.(buffer := Reset(d.buffer), running := true), true)
    case (0x40, 0x43) => (d.(buffer := Reset(d.buffer), running := false), true)
    case _ => (d, false)
  }

  /** my_setup, by ranges of the request number */
  function AppSetup(d: Device, r: SetupRequest, line: Inputs): (Device, bool) {
    if r.bRequest >= 0x40 then CanSetup(d, r)
    else if r.bRequest >= 0x20 then BusSetup(d, r, line)
    else SystemSetup(d, r, line)
  }

  function StateCode(s: AppState): byte {
    match s
    case appIDLE => 0
    case appDETACH => 1
    case dfuIDLE => 2
  }

  /** my_dfu_setup and dfu_setup_common */
  function DfuSetup(d: Device, r: SetupRequest): (Device, bool) {
    match (r.bmRequestType, r.bRequest)
    case (0x21, 0) => (d.(dfuState := appDETACH), true)
    case (0xa1, 3) => Replied(d, [d.dfuStatus, 100, 0, 0, StateCode(d.dfuState), 0])
    case (0x21, 4) => (d.(dfuState := dfuIDLE, dfuStatus := 0), true)
    case (0xa1, 5) => Replied(d, [StateCode(d.dfuState)])
    case _ => (d, false)
  }

  /** my_set_interface */
  function SelectHandler(d: Device, nth: nat): Device {
    if nth != 0 then d.(handler := MyDfuSetup, dfuState := appIDLE) else d.(handler := MySetup)
  }

  /** Descriptor memory as user_get_descriptor shows it: with `dfuOther` in
      place of the strings while the DFU handler is selected. */
  function Table(d: Device): Descriptors {
    if d.handler.MySetup? then d.desc else d.desc.(other := d.dfuOther)
  }

  /** handle_setup */
  function HandleSetup(d: Device, r: SetupRequest, line: Inputs): (Device, bool)
    requires Ready(d)
  {
    Respond(d, Standard(Table(d), r), r, line)
  }

  function Respond(d: Device, a: Answer, r: SetupRequest, line: Inputs): (Device, bool) {
    match a
    case Refuse => (d, false)
    case Accept => (d, true)
    case Reply(data) => Replied(d, data)
    case SetAddress => (d.(ep0 := Send(d.ep0, [], EnableAddr)), true)
    case SelectInterface(nth) => (SelectHandler(d, nth), true)
    case Application => if d.handler.MySetup? then AppSetup(d, r, line) else DfuSetup(d, r)
  }

  datatype Event =
    | Setup(request: SetupRequest, line: Inputs)
    | Out(packet: seq<byte>)
    | Stalled
    | In
    | BusReset

  /** A refused request stalls; one without data stage gets its status stage. */
  function AfterSetup(d: Device, r: SetupRequest, ok: bool): Device {
    if !ok then d.(ep0 := Cancel(d.ep0))
    else if r.bmRequestType < 0x80 && d.ep0.xfer.Idle? then d.(ep0 := Send(d.ep0, [], NoCallback))
    else d
  }

  function OnSetup(d: Device, r: SetupRequest, line: Inputs): Device
    requires Ready(d)
  {
    var (d1, ok) := HandleSetup(d.(ep0 := Cancel(d.ep0)), r, line);
    AfterSetup(d1, r, ok)
  }

  lemma SetupParts(d: Device, r: SetupRequest, line: Inputs, d1: Device, ok: bool)
    requires Ready(d) && (d1, ok) == HandleSetup(d.(ep0 := Cancel(d.ep0)), r, line)
    ensures OnSetup(d, r, line) == AfterSetup(d1, r, ok)
  {
  }

  /** ATUSB_CAN_PUT_CONFIG receives straight into can_cfg. */
  function Overlay(config: seq<byte>, got: seq<byte>): seq<byte> {
    if |got| <= |config| then got + config[|got|..] else config
  }

  /** Bytes have arrived; the SPI requests keep theirs in `buf`. */
  function Arrived(d: Device, got: seq<byte>, done: Callback): Device {
    if done.DoBufWrite? then d else d.(config := Overlay(d.config, got))
  }

  /** All bytes have arrived and the callback, if any, has run. */
  function Completed(d: Device, data: seq<byte>, done: Callback): Device {
    match done
    case DoBufWrite(head) => d.(bus := d.bus + [Spi(head + data)])
    case _ => d.(config := Overlay(d.config, data))
  }

  function OnOut(d: Device, packet: seq<byte>): Device {
    match OutPacket(d.ep0, packet)
    case Stall(ep) => d.(ep0 := ep)
    case Stored(ep) => Arrived(d, ep.xfer.got, ep.xfer.rxDone).(ep0 := ep)
    case Complete(ep, data, done) => Completed(d, data, done).(ep0 := Send(ep, [], NoCallback))
  }

  predicate SaneEvent(e: Event) {
    e.Setup? ==> Sane(e.request)
  }

  function Step(d: Device, e: Event): Device
    requires Ready(d)
  {
    if d.restarting then d
    else
      match e
      case Setup(r, line) => OnSetup(d, r, line)
      case Out(packet) => OnOut(d, packet)
      case Stalled => d.(ep0 := Cancel(d.ep0))
      case In => d.(ep0 := InPacket(d.ep0).ep)
      case BusReset => if d.dfuState.appDETACH? then d.(restarting := true) else Initialised(d)
  }

  /** ep_init makes all endpoints idle. */
  function Initialised(d: Device): Device {
    d.(ep0 := Cancel(d.ep0), buffer := d.buffer.(ep1 := Cancel(d.buffer.ep1), ep2 := Cancel(d.buffer.ep2)))
  }

  /** A run of events; they are served as long as the device is in the condition
      they rely on, which by RunKeeps is always. */
  function Exec(d: Device, run: seq<Event>): Device
    decreases |run|
  {
    if run == [] || !Ready(d) then d else Exec(Step(d, run[0]), run[1..])
  }

  predicate SaneRun(run: seq<Event>) {
    forall e | e in run :: SaneEvent(e)
  }

  // ----- invariant --------------------------------------------------------------------

  /** A pending data stage fills can_cfg, or `buf` behind its head. */
  ghost predicate ReceiveInv(d: Device) {
    d.ep0.xfer.Receiving? ==>
      var x := d.ep0.xfer;
      if x.rxDone.DoBufWrite? then 1 <= |x.rxDone.head| <= 2 && |x.rxDone.head| + |x.got| + x.room <= 64
      else x.rxDone == NoCallback && |x.got| + x.room == CONFIG_SIZE == |d.config| && d.config[..|x.got|] == x.got
  }

  ghost predicate DeviceInv(d: Device) {
    Ready(d) && !d.ep0.bug && d.ep0.size == 64 && !d.ep0.truncate && ReceiveInv(d)
  }

  /** What a request may do at once: nothing is received yet, and at most one
      transfer has been started on an idle EP0. */
  ghost predicate Answered(d: Device, m: Device) {
    m.config == d.config && m.desc == d.desc && m.dfuOther == d.dfuOther && m.buildDate == d.buildDate &&
    !m.ep0.bug && m.ep0.size == d.ep0.size && m.ep0.truncate == d.ep0.truncate &&
    (m.ep0.xfer.Receiving? ==>
       var x := m.ep0.xfer;
       x.got == [] &&
       if x.rxDone.DoBufWrite? then 1 <= |x.rxDone.head| <= 2 && |x.rxDone.head| + x.room <= 64
       else x.rxDone == NoCallback && x.room == CONFIG_SIZE)
  }

  lemma AnsweredKeeps(d: Device, m: Device)
    requires DeviceInv(d) && Answered(d, m)
    ensures DeviceInv(m)
  {
  }

  lemma BusSetupAnswers(d: Device, r: SetupRequest, line: Inputs)
    requires Sane(r) && d.ep0.xfer.Idle? && !d.ep0.bug
    ensures Answered(d, BusSetup(d, r, line).0)
  {
  }

  lemma SystemSetupAnswers(d: Device, r: SetupRequest, line: Inputs)
    requires d.ep0.xfer.Idle? && !d.ep0.bug
    ensures Answered(d, SystemSetup(d, r, line).0)
  {
  }

  lemma CanSetupAnswers(d: Device, r: SetupRequest)
    requires d.ep0.xfer.Idle? && !d.ep0.bug
    ensures Answered(d, CanSetup(d, r).0)
  {
  }

  lemma AppSetupAnswers(d: Device, r: SetupRequest, line: Inputs)
    requires Sane(r) && d.ep0.xfer.Idle? && !d.ep0.bug
    ensures Answered(d, AppSetup(d, r, line).0)
  {
    if r.bRequest >= 0x40 {
      CanSetupAnswers(d, r);
    } else if r.bRequest >= 0x20 {
      BusSetupAnswers(d, r, line);
    } else {
      SystemSetupAnswers(d, r, line);
    }
  }

  lemma DfuSetupAnswers(d: Device, r: SetupRequest)
    requires d.ep0.xfer.Idle? && !d.ep0.bug
    ensures Answered(d, DfuSetup(d, r).0)
  {
  }

  lemma RespondAnswers(d: Device, a: Answer, r: SetupRequest, line: Inputs)
    requires Sane(r) && d.ep0.xfer.Idle? && !d.ep0.bug
    ensures Answered(d, Respond(d, a, r, line).0)
  {
    if a.Application? && d.handler.MySetup? {
      AppSetupAnswers(d, r, line);
    } else if a.Application? {
      DfuSetupAnswers(d, r);
    }
  }

  lemma SetupAnswers(d: Device, r: SetupRequest, line: Inputs)
    requires Sane(r) && Ready(d) && !d.ep0.bug
    ensures Answered(d, OnSetup(d, r, line))
  {
    var d0 := d.(ep0 := Cancel(d.ep0));
    RespondAnswers(d0, Standard(Table(d0), r), r, line);
  }

  lemma SetupKeeps(d: Device, r: SetupRequest, line: Inputs)
    requires Sane(r) && DeviceInv(d)
    ensures DeviceInv(OnSetup(d, r, line))
  {
    SetupAnswers(d, r, line);
    AnsweredKeeps(d, OnSetup(d, r, line));
  }

  lemma OutKeeps(d: Device, packet: seq<byte>)
    requires DeviceInv(d)
    ensures DeviceInv(OnOut(d, packet))
  {
    match OutPacket(d.ep0, packet)
    case Stored(ep) =>
      if !ep.xfer.rxDone.DoBufWrite? {
        assert Overlay(d.config, ep.xfer.got)[..|ep.xfer.got|] == ep.xfer.got;
      }
    case _ =>
  }

  lemma StepKeeps(d: Device, e: Event)
    requires DeviceInv(d) && SaneEvent(e)
    ensures DeviceInv(Step(d, e))
  {
    match e
    case Setup(r, line) => SetupKeeps(d, r, line);
    case Out(packet) => OutKeeps(d, packet);
    case _ =>
  }

  lemma {:induction false} RunKeeps(d: Device, run: seq<Event>)
    requires DeviceInv(d) && SaneRun(run)
    ensures DeviceInv(Exec(d, run))
    decreases |run|
  {
    if run != [] {
      assert run[0] in run;
      StepKeeps(d, run[0]);
      RunKeeps(Step(d, run[0]), run[1..]);
    }
  }

  // ----- theorems -----------------------------------------------------------------------

  /** usb_io is never called on a busy EP0, whatever the host asks in whatever
      order, and a data stage never runs over the memory it fills. */
  lemma Ep0NeverBug(d: Device, run: seq<Event>)
    requires PowerUp(d) && SaneRun(run)
    ensures !Exec(d, run).ep0.bug && Ready(Exec(d, run)) && ReceiveInv(Exec(d, run))
  {
    RunKeeps(d, run);
  }

  function Packets(packets: seq<seq<byte>>): seq<Event> {
    seq(|packets|, i requires 0 <= i < |packets| => Out(packets[i]))
  }

  /** A packet that does not complete the transfer. */
  lemma StageStep(d: Device, packet: seq<byte>)
    requires DeviceInv(d) && !d.restarting && d.ep0.xfer.Receiving? && |packet| < d.ep0.xfer.room
    ensures var x := d.ep0.xfer;
            Step(d, Out(packet)) == Arrived(d, x.got + packet, x.rxDone)
                                    .(ep0 := d.ep0.(xfer := Receiving(x.got + packet, x.room - |packet|, x.rxDone)))
    ensures DeviceInv(Step(d, Out(packet)))
  {
    StepKeeps(d, Out(packet));
  }

  lemma ExecHead(d: Device, run: seq<Event>)
    requires Ready(d) && run != []
    ensures Exec(d, run) == Exec(Step(d, run[0]), run[1..])
  {
  }

  /** Bytes that arrive later cover those that arrived before. */
  lemma ArrivedLater(d: Device, part: seq<byte>, whole: seq<byte>, done: Callback, ep0: Ep)
    requires |part| <= |whole| && (!done.DoBufWrite? ==> |whole| <= |d.config|)
    ensures Arrived(Arrived(d, part, done).(ep0 := ep0), whole, done) == Arrived(d, whole, done).(ep0 := ep0)
    ensures Completed(Arrived(d, part, done).(ep0 := ep0), whole, done) == Completed(d, whole, done).(ep0 := ep0)
  {
    if !done.DoBufWrite? {
      assert Overlay(Overlay(d.config, part), whole) == Overlay(d.config, whole);
    }
  }

  lemma SplitLength(packets: seq<seq<byte>>, length: nat)
    requires IsSplit(packets, length)
    ensures |Concat(packets)| == length
    decreases |packets|
  {
    if |packets| == 1 {
      assert Concat(packets) == packets[0] + Concat(packets[1..]);
    } else {
      SplitLength(packets[1..], length - |packets[0]|);
    }
  }

  /** A whole data stage, in however many packets. */
  lemma {:induction false} DataStage(d: Device, packets: seq<seq<byte>>)
    requires DeviceInv(d) && !d.restarting && d.ep0.xfer.Receiving? && IsSplit(packets, d.ep0.xfer.room)
    ensures var m := Exec(d, Packets(packets));
            && m == Completed(d, d.ep0.xfer.got + Concat(packets), d.ep0.xfer.rxDone).(ep0 := m.ep0)
            && m.ep0.xfer.Sending? && DeviceInv(m)
    decreases |packets|
  {
    var evs, x := Packets(packets), d.ep0.xfer;
    assert evs[1..] == Packets(packets[1..]);
    ExecHead(d, evs);
    if |packets| == 1 {
      LastOfStage(d, packets[0]);
      assert Concat(packets) == packets[0];
    } else {
      StageStep(d, packets[0]);
      DataStage(Step(d, evs[0]), packets[1..]);
      assert x.got + packets[0] + Concat(packets[1..]) == x.got + Concat(packets);
      SplitLength(packets, x.room);
      ArrivedLater(d, x.got + packets[0], x.got + Concat(packets), x.rxDone, Step(d, evs[0]).ep0);
    }
  }

  lemma LastOfStage(d: Device, packet: seq<byte>)
    requires DeviceInv(d) && !d.restarting && d.ep0.xfer.Receiving? && |packet| == d.ep0.xfer.room
    ensures var x := d.ep0.xfer;
            Step(d, Out(packet)) == Completed(d, x.got + packet, x.rxDone).(ep0 := Send(Cancel(d.ep0), [], NoCallback))
    ensures DeviceInv(Step(d, Out(packet)))
  {
    StepKeeps(d, Out(packet));
  }

  const PUT_CONFIG: SetupRequest := SetupRequest(0x40, 0x40, 0, 0, CONFIG_SIZE)
  const GET_CONFIG: SetupRequest := SetupRequest(0xc0, 0x41, 0, 0, CONFIG_SIZE)

  lemma PutConfigStep(d: Device)
    requires Ready(d) && !d.restarting && d.handler == MySetup
    ensures Step(d, Setup(PUT_CONFIG, QUIET)) ==
            d.(ep0 := Cancel(d.ep0).(xfer := Receiving([], CONFIG_SIZE, NoCallback)))
  {
  }

  lemma GetConfigStep(d: Device)
    requires Ready(d) && !d.restarting && d.handler == MySetup
    ensures Step(d, Setup(GET_CONFIG, QUIET)).ep0.xfer == Sending(d.config, NoCallback)
  {
  }

  /** ATUSB_CAN_GET_CONFIG answers what ATUSB_CAN_PUT_CONFIG sent, in however
      many packets it came, as long as the vendor handler is selected. */
  lemma ConfigRoundTrip(d: Device, packets: seq<seq<byte>>)
    requires DeviceInv(d) && !d.restarting && d.handler == MySetup
    requires |Concat(packets)| == CONFIG_SIZE && IsSplit(packets, CONFIG_SIZE)
    ensures var m := Exec(Step(d, Setup(PUT_CONFIG, QUIET)), Packets(packets));
            && Ready(m) && m.config == Concat(packets)
            && Step(m, Setup(GET_CONFIG, QUIET)).ep0.xfer == Sending(Concat(packets), NoCallback)
  {
    var d1 := Step(d, Setup(PUT_CONFIG, QUIET));
    StepKeeps(d, Setup(PUT_CONFIG, QUIET));
    PutConfigStep(d);
    DataStage(d1, packets);
    assert [] + Concat(packets) == Concat(packets);
    assert Overlay(d.config, Concat(packets)) == Concat(packets);
    GetConfigStep(Exec(d1, Packets(packets)));
  }

  /** Packets that do not complete a transfer. */
  lemma {:induction false} PartOfStage(d: Device, packets: seq<seq<byte>>)
    requires DeviceInv(d) && !d.restarting && d.ep0.xfer.Receiving? && |Concat(packets)| < d.ep0.xfer.room
    ensures var m := Exec(d, Packets(packets));
            && m == Arrived(d, d.ep0.xfer.got + Concat(packets), d.ep0.xfer.rxDone).(ep0 := m.ep0)
            && DeviceInv(m) && m.ep0.xfer.Receiving? && m.ep0.xfer.room == d.ep0.xfer.room - |Concat(packets)|
    decreases |packets|
  {
    var x := d.ep0.xfer;
    if packets == [] {
      NothingArrived(d);
      assert x.got + Concat(packets) == x.got;
    } else {
      var evs := Packets(packets);
      assert evs[1..] == Packets(packets[1..]);
      ExecHead(d, evs);
      StageStep(d, packets[0]);
      PartOfStage(Step(d, evs[0]), packets[1..]);
      assert x.got + packets[0] + Concat(packets[1..]) == x.got + Concat(packets);
      ArrivedLater(d, x.got + packets[0], x.got + Concat(packets), x.rxDone, Step(d, evs[0]).ep0);
    }
  }

  lemma NothingArrived(d: Device)
    requires DeviceInv(d) && d.ep0.xfer.Receiving?
    ensures Arrived(d, d.ep0.xfer.got, d.ep0.xfer.rxDone) == d
  {
    if !d.ep0.xfer.rxDone.DoBufWrite? {
      assert Overlay(d.config, d.ep0.xfer.got) == d.config;
    }
  }

  /** What ends a data stage early: any event but a packet that fits. */
  predicate CutsShort(e: Event, room: nat) {
    SaneEvent(e) && (e.Out? ==> |e.packet| > room)
  }

  /** An ATUSB_CAN_PUT_CONFIG cut short leaves a mixture: the bytes that came,
      in however many packets, then the old ones. */
  lemma PartialConfig(d: Device, packets: seq<seq<byte>>, e: Event)
    requires DeviceInv(d) && !d.restarting && d.handler == MySetup && |Concat(packets)| < CONFIG_SIZE
    requires CutsShort(e, CONFIG_SIZE - |Concat(packets)|)
    ensures var m := Exec(Step(d, Setup(PUT_CONFIG, QUIET)), Packets(packets));
            Ready(m) && Step(m, e).config == Concat(packets) + d.config[|Concat(packets)|..]
  {
    var d1 := Step(d, Setup(PUT_CONFIG, QUIET));
    StepKeeps(d, Setup(PUT_CONFIG, QUIET));
    PutConfigStep(d);
    PartOfStage(d1, packets);
    assert [] + Concat(packets) == Concat(packets);
    ConfigOnlyByOut(Exec(d1, Packets(packets)), e);
  }

  lemma ConfigOnlyByOut(m: Device, e: Event)
    requires DeviceInv(m) && SaneEvent(e) && (e.Out? ==> OutPacket(m.ep0, e.packet).Stall?)
    ensures Step(m, e).config == m.config
  {
    if e.Setup? && !m.restarting {
      SetupAnswers(m, e.request, e.line);
    }
  }

  lemma SpiWriteStep(d: Device, r: SetupRequest, line: Inputs)
    requires Ready(d) && !d.restarting && d.handler == MySetup && SpiWrite(r) && 0 < r.wLength <= 64 - |Head(r)|
    ensures Step(d, Setup(r, line)) == d.(ep0 := Cancel(d.ep0).(xfer := Receiving([], r.wLength, DoBufWrite(Head(r)))))
  {
  }

  /** ATUSB_SPI_WRITE1 and ATUSB_SPI_WRITE2 reach the SPI bus as one transfer:
      the bytes of the request, then the data, in however many packets. */
  lemma SpiWriteThrough(d: Device, r: SetupRequest, line: Inputs, packets: seq<seq<byte>>)
    requires DeviceInv(d) && !d.restarting && d.handler == MySetup && SpiWrite(r)
    requires 0 < r.wLength <= 64 - |Head(r)| && IsSplit(packets, r.wLength)
    ensures var m := Exec(Step(d, Setup(r, line)), Packets(packets));
            m == d.(ep0 := m.ep0, bus := d.bus + [Spi(Head(r) + Concat(packets))])
  {
    StepKeeps(d, Setup(r, line));
    SpiWriteStep(d, r, line);
    DataStage(Step(d, Setup(r, line)), packets);
    assert [] + Concat(packets) == Concat(packets);
  }

  predicate StartOrStop(r: SetupRequest) {
    r.bmRequestType == 0x40 && (r.bRequest == 0x42 || r.bRequest == 0x43)
  }

  /** What control traffic does to the CAN buffers: ATUSB_CAN_START and
      ATUSB_CAN_STOP empty them and keep EP1 armed, a bus reset makes their
      endpoints idle, and nothing else touches them. */
  lemma BuffersTouched(d: Device, e: Event)
    requires Ready(d) && !d.restarting && SaneEvent(e)
    ensures var m := Step(d, e);
            m.buffer == if e.Setup? && StartOrStop(e.request) && d.handler.MySetup? then Reset(d.buffer)
                        else if e.BusReset? && !d.dfuState.appDETACH? then
                          d.buffer.(ep1 := Cancel(d.buffer.ep1), ep2 := Cancel(d.buffer.ep2))
                        else d.buffer
  {
    if e.Setup? {
      BuffersAndRequests(d.(ep0 := Cancel(d.ep0)), e.request, e.line);
    }
  }

  lemma BuffersAndRequests(d: Device, r: SetupRequest, line: Inputs)
    requires Ready(d)
    ensures HandleSetup(d, r, line).0.buffer == if StartOrStop(r) && d.handler.MySetup? then Reset(d.buffer) else d.buffer
  {
  }
}
