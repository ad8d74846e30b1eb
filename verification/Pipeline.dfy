/** The transmit and receive pipeline across USB as a transition system: the
    driver's three concurrent activities, the two bulk pipes, the firmware's
    two endpoint interrupts and the steps of its main loop, in any order. */
module Pipeline {
  import opened Wire
  import opened Endpoint
  import opened BufferSpec
  import opened HostSpec

  /** The main loop of firmware/main.c between two critical sections. */
  datatype Phase = AtPrepare | AtSend | AtTake | AtError | AtReport

  /** How many frames had entered and left the transmit ring at some time. */
  datatype Snap = Snap(entered: nat, left: nat)

  /** A report that has left EP2, with the ring as it was when free_slots was
      written. */
  datatype Flight = Flight(bytes: seq<byte>, snap: Snap)

  /** A frame that has passed a point where frames can get lost. */
  datatype Fate = Fate(frame: Packet, kept: bool)

  function FramesOf(fs: seq<Fate>): (ps: seq<Packet>)
    ensures |ps| == |fs|
  {
    seq(|fs|, i requires 0 <= i < |fs| => fs[i].frame)
  }

  function Kept(fs: seq<Fate>): (ps: seq<Packet>)
    ensures |ps| <= |fs|
  {
    if fs == [] then [] else Kept(fs[..|fs| - 1]) + if fs[|fs| - 1].kept then [fs[|fs| - 1].frame] else []
  }

  /** The first k frames are kept. */
  function Mark(frames: seq<Packet>, k: nat): seq<Fate> {
    seq(|frames|, i requires 0 <= i < |frames| => Fate(frames[i], i < k))
  }

  /** What the driver knows of the ring: the snapshots behind the last report
      processed (`last`) and behind the last one processed or dropped
      (`front`), the free_slots of all reports processed and of those dropped
      since the last of them. */
  datatype View = View(last: Snap, front: Snap, told: seq<int>, missed: seq<int>)

  /** Why the queue may stay stopped; a wake test that starts the queue takes
      all of these away. `halting`: the frame start_xmit is working on has
      stopped it. `stranded`: the submit of such a frame has failed. `deaf`: a
      report that would have started it was dropped. `voided`: a frame was
      lost on the bus while it was stopped. */
  datatype Marks = Marks(halting: bool, stranded: bool, deaf: bool, voided: bool)

  const UNMARKED: Marks := Marks(false, false, false, false)

  predicate Orphaned(m: Marks) {
    m.stranded || m.deaf || m.voided
  }

  /** `wire`: URBs submitted and not acknowledged. `bank`: the packet in EP1's
      FIFO. `acked`: contexts of URBs whose write callback is due. `transit`:
      reports between EP2 and the read callback. `readers`: read URBs with the
      USB core.
      History: `staged` is the snapshot behind the report held by EP2.
      `leaked` are contexts nobody will release, `stalled` says that EP1 met a
      packet while no receive was armed; `current` and `submitted` are the
      socket buffers start_xmit is working on and has submitted, `sent` their
      packets, `crossed` those that have left the wire, one way or the other,
      `loaded` those given to mcp2515_tx; `taken` are the frames read from the
      controller, `handed` those of the reports the read callback has dealt
      with, of which it passes the kept ones on to netif_rx. */
  datatype State = State(
    buffer: Buffer,
    phase: Phase,
    host: Host,
    wire: seq<Urb>,
    bank: seq<Packet>,
    acked: seq<nat>,
    transit: seq<Flight>,
    readers: nat,
    staged: Snap,
    view: View,
    marks: Marks,
    leaked: seq<nat>,
    stalled: bool,
    current: CanFrame,
    submitted: seq<CanFrame>,
    sent: seq<Packet>,
    crossed: seq<Fate>,
    loaded: seq<Packet>,
    taken: seq<Packet>,
    handed: seq<Fate>)

  const MAX_RX_URBS := 8

  /** A session starts with EP1 armed and both sides idle; buffer_level may be
      anything an earlier session left behind, and at least one read URB could
      be submitted. */
  predicate Init(s: State) {
    s == State(TxPrepare(INITIAL_BUFFER), AtPrepare, InitialHost(s.host.level), [], [], [], [], s.readers, Snap(0, 0),
               View(Snap(0, 0), Snap(0, 0), [], []), UNMARKED, [], false, s.current, [], [], [], [], [], []) &&
    s.host.level <= INITIAL_BUFFER_LEVEL && 1 <= s.readers <= MAX_RX_URBS
  }

  datatype Event =
    // driver: start_xmit
    | Check(skb: CanFrame, junk: seq<byte>)
    | Stop
    | Charge
    | Submit(ok: bool)
    // driver: write callback
    | Completed
    | Released(present: bool)
    // driver: read callback
    | Set
    | Wake
    | Drop(k: nat, again: bool)   // no socket buffer for frame k, or an error status
    | NoReader                    // a read URB is not submitted again
    // bus and endpoint interrupts
    | UsbOut
    | Abort                       // a URB fails on the bus
    | Ep1
    | Ep2
    // firmware main loop
    | Prepare
    | SendFrame(txbufEmpty: bool)
    | TakeFrame(frame: seq<Packet>)
    | TakeError(frame: seq<Packet>)
    | MakeReport

  // ----- counters -----------------------------------------------------------

  function Entered(s: State): nat {
    |s.loaded| + |s.buffer.queue|
  }

  function Left(s: State): nat {
    |s.loaded|
  }

  /** The frame start_xmit has charged and not yet submitted. */
  function InXmit(h: Host): seq<Packet> {
    if h.xmit.Charged? then [h.xmit.pending.bytes] else []
  }

  /** Frames charged to buffer_level so far, less those lost on the way. */
  function Charges(s: State): nat {
    |Kept(s.crossed)| + |s.wire| + |InXmit(s.host)|
  }

  function Carried(f: Flight): seq<Packet> {
    match ParseReport(f.bytes)
    case Malformed => []
    case Report(_, frames) => frames
  }

  // ----- the transition relation --------------------------------------------

  predicate Enabled(s: State, e: Event) {
    match e
    case Check(skb, junk) => s.host.xmit.NoXmit? && !s.host.stopped && ValidFrame(skb) && |junk| == 8
    case Stop => s.host.xmit.Checked?
    case Charge => s.host.xmit.Acted?
    case Submit(_) => s.host.xmit.Charged?
    case Completed => s.host.releasing == [] && s.acked != []
    case Released(_) => |s.host.releasing| == 1 && s.host.releasing[0] < MAX_TX_URBS == |s.host.echo|
    case Set => s.host.waking == [] && s.transit != [] && s.readers > 0
    case Wake => |s.host.waking| == 1
    case Drop(k, _) =>
      s.host.waking == [] && s.transit != [] && s.readers > 0 && (k == 0 || k < |Carried(s.transit[0])|)
    case NoReader => s.host.waking == [] && s.readers > 0
    case UsbOut => s.wire != [] && s.bank == []
    case Abort => s.wire != []
    case Ep1 => s.bank != []
    case Ep2 => s.buffer.ep2.xfer.Sending?
    case Prepare => s.phase.AtPrepare?
    case SendFrame(_) => s.phase.AtSend?
    case TakeFrame(frame) => s.phase.AtTake? && |frame| <= 1
    case TakeError(frame) => s.phase.AtError? && |frame| <= 1
    case MakeReport => s.phase.AtReport? && |s.buffer.queue| <= TX_SLOTS && |s.buffer.filling| <= RX_MAX_FRAMES
  }

  function Step(s: State, e: Event): State
    requires Enabled(s, e)
  {
    match e
    case Check(skb, junk) => s.(host := XmitCheck(s.host, EncodeFrame(skb, junk)), current := skb)
    case Stop => s.(host := XmitStop(s.host), marks := s.marks.(halting := s.host.xmit.stop))
    case Charge => s.(host := XmitCharge(s.host))
    case Submit(ok) =>
      if ok then
        s.(host := XmitSubmit(s.host), wire := s.wire + [s.host.xmit.pending],
           sent := s.sent + [s.host.xmit.pending.bytes], submitted := s.submitted + [s.current],
           marks := s.marks.(halting := false))
      else
        s.(host := XmitFail(s.host), leaked := s.leaked + [s.host.xmit.pending.context],
           marks := s.marks.(stranded := s.marks.stranded || s.marks.halting, halting := false))
    case Completed => s.(host := WriteDone(s.host, s.acked[0]), acked := s.acked[1..])
    case Released(present) =>
      s.(host := WriteRelease(s.host, present),
         leaked := if present then s.leaked else s.leaked + s.host.releasing)
    case Set =>
      var flight := s.transit[0];
      (match ParseReport(flight.bytes)
       case Malformed => s.(transit := s.transit[1..])
       case Report(free, frames) =>
         s.(transit := s.transit[1..], host := ReportSet(s.host, free),
            view := View(flight.snap, flight.snap, s.view.told + [free], []),
            handed := s.handed + Mark(frames, |frames|)))
    case Wake =>
      s.(host := ReportWake(s.host), marks := if s.host.waking[0] > MAX_TX_URBS + 3 then UNMARKED else s.marks)
    case Drop(k, again) =>
      var flight := s.transit[0];
      (match ParseReport(flight.bytes)
       case Malformed => s.(transit := s.transit[1..])
       case Report(free, frames) =>
         s.(transit := s.transit[1..], readers := if again then s.readers else s.readers - 1,
            view := s.view.(front := flight.snap, missed := s.view.missed + [free]),
            marks := if s.host.stopped && free > MAX_TX_URBS + 3 then s.marks.(deaf := true) else s.marks,
            handed := s.handed + Mark(frames, k)))
    case NoReader => s.(readers := s.readers - 1)
    case UsbOut =>
      s.(wire := s.wire[1..], bank := [s.wire[0].bytes], acked := s.acked + [s.wire[0].context],
         crossed := s.crossed + [Fate(s.wire[0].bytes, true)])
    case Abort =>
      s.(wire := s.wire[1..], acked := s.acked + [s.wire[0].context],
         crossed := s.crossed + [Fate(s.wire[0].bytes, false)],
         marks := if s.host.stopped then s.marks.(voided := true) else s.marks)
    case Ep1 =>
      var (buffer, refused) := Ep1Interrupt(s.buffer, s.bank[0]);
      s.(buffer := buffer, bank := s.bank[1..], stalled := s.stalled || refused)
    case Ep2 =>
      var (buffer, packets) := Ep2Interrupt(s.buffer);
      s.(buffer := buffer, transit := s.transit + seq(|packets|, i requires 0 <= i < |packets| => Flight(packets[i], s.staged)))
    case Prepare => s.(buffer := TxPrepare(s.buffer), phase := AtSend)
    case SendFrame(txbufEmpty) =>
      if CanSend(s.buffer, txbufEmpty) then
        s.(buffer := TxSend(s.buffer), loaded := s.loaded + [s.buffer.queue[0]], phase := AtTake)
      else s.(phase := AtTake)
    case TakeFrame(frame) => Take(s, frame).(phase := AtError)
    case TakeError(frame) => Take(s, frame).(phase := AtReport)
    case MakeReport =>
      if CanReport(s.buffer) then
        s.(buffer := RxReport(s.buffer), staged := Snap(Entered(s), Left(s)), phase := AtPrepare)
      else s.(phase := AtPrepare)
  }

  /** A frame is read from the controller only if the report has room. */
  function Take(s: State, frame: seq<Packet>): State {
    if |frame| == 1 && CanTake(s.buffer) then s.(buffer := RxTake(s.buffer, frame[0]), taken := s.taken + frame)
    else s
  }

  /** A run is any sequence of enabled events. */
  predicate IsRun(s: State, run: seq<Event>)
    decreases |run|
  {
    run == [] || (Enabled(s, run[0]) && IsRun(Step(s, run[0]), run[1..]))
  }

  function Exec(s: State, run: seq<Event>): State
    requires IsRun(s, run)
    decreases |run|
  {
    if run == [] then s else Exec(Step(s, run[0]), run[1..])
  }

  // ----- the staleness hypothesis -------------------------------------------

  /** While the driver handles a report, at most `bound` frames have been
      charged that had not entered the ring when the report was written. This
      is asked when buffer_level is stored; with `atWake` also when the queue
      is tested, as start_xmit may run in between on another processor. */
  datatype Hypothesis = Hypothesis(bound: nat, atWake: bool)

  predicate Fresh(s: State, e: Event, h: Hypothesis) {
    (e.Set? && s.transit != [] ==> Charges(s) - s.transit[0].snap.entered <= h.bound) &&
    (e.Wake? && h.atWake ==> Charges(s) - s.view.last.entered <= h.bound)
  }

  predicate FreshRun(s: State, run: seq<Event>, h: Hypothesis)
    requires IsRun(s, run)
    decreases |run|
  {
    run == [] || (Fresh(s, run[0], h) && FreshRun(Step(s, run[0]), run[1..], h))
  }
}
