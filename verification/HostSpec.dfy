/** What kernel-module/open-usb-can.c does to its shared variables: the credit
    counter, the queue-stopped flag, the job counter and the pool of echo
    contexts. start_xmit, the read callback and the write callback run
    concurrently, so each is cut at its accesses to shared variables. */
module HostSpec {
  import opened Wire

  const MAX_TX_URBS := 8
  const INITIAL_BUFFER_LEVEL := 32

  datatype Urb = Urb(context: nat, bytes: Packet)

  /** Where start_xmit is: not running, decided whether to stop the queue,
      acted on the decision, or charged the frame to buffer_level. */
  datatype Xmit =
    | NoXmit
    | Checked(stop: bool, pending: Urb)
    | Acted(pending: Urb)
    | Charged(pending: Urb)

  /** `echo[i]` is tx_contexts[i].echo_index; `waking` holds the free_slots of
      a read callback that has stored buffer_level and not yet tested the
      queue; `releasing` the context of a write callback that has decremented
      active_tx_jobs and not yet released it. */
  datatype Host = Host(
    level: int,
    active: int,
    stopped: bool,
    echo: seq<nat>,
    xmit: Xmit,
    waking: seq<int>,
    releasing: seq<nat>)

  function InitialHost(level: int): Host {
    Host(level, 0, false, seq(MAX_TX_URBS, _ => MAX_TX_URBS), NoXmit, [], [])
  }

  /** The search loop of start_xmit. */
  function FirstFree(echo: seq<nat>, from: nat): nat
    requires from <= |echo|
    decreases |echo| - from
  {
    if from == |echo| || echo[from] == MAX_TX_URBS then from else FirstFree(echo, from + 1)
  }

  lemma {:induction false} FirstFreeIsFirst(echo: seq<nat>, from: nat)
    requires from <= |echo|
    ensures var i := FirstFree(echo, from);
            && from <= i <= |echo|
            && (i < |echo| ==> echo[i] == MAX_TX_URBS)
            && forall j | from <= j < i :: echo[j] != MAX_TX_URBS
    decreases |echo| - from
  {
    if from < |echo| && echo[from] != MAX_TX_URBS {
      FirstFreeIsFirst(echo, from + 1);
    }
  }

  predicate HasContext(h: Host) {
    FirstFree(h.echo, 0) < |h.echo|
  }

  /** Claims a context, counts the job and decides whether to stop the queue.
      Without a free context the frame is dropped and nothing changes. */
  function XmitCheck(h: Host, bytes: Packet): Host {
    var i := FirstFree(h.echo, 0);
    if i >= |h.echo| then h
    else
      h.(echo := h.echo[i := i],
         active := h.active + 1,
         xmit := Checked(h.active + 1 >= MAX_TX_URBS || h.level < MAX_TX_URBS + 3, Urb(i, bytes)))
  }

  function XmitStop(h: Host): Host
    requires h.xmit.Checked?
  {
    h.(stopped := h.stopped || h.xmit.stop, xmit := Acted(h.xmit.pending))
  }

  function XmitCharge(h: Host): Host
    requires h.xmit.Acted?
  {
    h.(level := h.level - 1, xmit := Charged(h.xmit.pending))
  }

  /** usb_submit_urb succeeded: the URB is on its way. */
  function XmitSubmit(h: Host): Host
    requires h.xmit.Charged?
  {
    h.(xmit := NoXmit)
  }

  /** usb_submit_urb failed: the job is uncounted, the context stays taken. */
  function XmitFail(h: Host): Host
    requires h.xmit.Charged?
  {
    h.(active := h.active - 1, xmit := NoXmit)
  }

  /** Read callback, first half: atomic_set of buffer_level. */
  function ReportSet(h: Host, free: int): Host {
    h.(level := free, waking := [free])
  }

  /** Read callback, second half: the wake test. */
  function ReportWake(h: Host): Host
    requires |h.waking| == 1
  {
    h.(stopped := h.stopped && h.waking[0] <= MAX_TX_URBS + 3, waking := [])
  }

  /** Write callback, first half: the job is done. */
  function WriteDone(h: Host, context: nat): Host {
    h.(active := h.active - 1, releasing := [context])
  }

  /** Write callback, second half: the context is released, unless the device
      has gone away. */
  function WriteRelease(h: Host, present: bool): Host
    requires |h.releasing| == 1 && h.releasing[0] < |h.echo|
  {
    h.(echo := if present then h.echo[h.releasing[0] := MAX_TX_URBS] else h.echo, releasing := [])
  }

  // ----- whole calls ----------------------------------------------------------

  /** start_xmit when nothing runs in between. */
  function StartXmit(h: Host, bytes: Packet, submitOk: bool): Host {
    var h1 := XmitCheck(h, bytes);
    if !h1.xmit.Checked? then h1
    else
      var h3 := XmitCharge(XmitStop(h1));
      if submitOk then XmitSubmit(h3) else XmitFail(h3)
  }

  /** The read callback, for a packet that came without an error and `skbs`
      socket buffers: what it does to the driver. */
  function ReadCallback(h: Host, packet: seq<byte>, skbs: nat): Host {
    match ParseReport(packet)
    case Malformed => h
    case Report(free, frames) => if |frames| <= skbs then ReportWake(ReportSet(h, free)) else h
  }

  /** ... and the frames it passes on. */
  function Passed(packet: seq<byte>, skbs: nat): seq<Packet> {
    match ParseReport(packet)
    case Malformed => []
    case Report(_, frames) => if skbs < |frames| then frames[..skbs] else frames
  }

  predicate Idle(h: Host) {
    h.xmit.NoXmit? && h.waking == [] && h.releasing == []
  }

  /** What a call of start_xmit comes to, in numbers: which context is taken,
      when the queue is stopped, and that a failed submit keeps the context
      and the charge but not the job. Without a free context nothing happens. */
  lemma StartXmitEffect(h: Host, bytes: Packet, submitOk: bool)
    requires Idle(h) && |h.echo| == MAX_TX_URBS
    ensures var t := StartXmit(h, bytes, submitOk);
            if forall i | 0 <= i < |h.echo| :: h.echo[i] != MAX_TX_URBS then t == h
            else
              && Idle(t) && t.level == h.level - 1
              && t.active == h.active + (if submitOk then 1 else 0)
              && t.stopped == (h.stopped || h.active + 1 >= 8 || h.level < 11)
              && exists i: nat ::
                   && i < |h.echo| && h.echo[i] == 8 && (forall j | 0 <= j < i :: h.echo[j] != 8)
                   && t.echo == h.echo[i := i]
  {
    FirstFreeIsFirst(h.echo, 0);
    var i := FirstFree(h.echo, 0);
    if i < |h.echo| {
      assert h.echo[i] == MAX_TX_URBS;
    }
  }

  /** What a read callback comes to, in the bytes of the packet: a packet that is
      long enough, with a socket buffer for every frame, gives its fourth byte
      as credit and starts the queue if that is more than 11; any other packet
      leaves the driver alone. The frames passed on stand at their places. */
  lemma ReadCallbackEffect(h: Host, packet: seq<byte>, skbs: nat)
    requires Idle(h)
    ensures var t := ReadCallback(h, packet, skbs);
            if |packet| >= 4 && |packet| >= 4 + 13 * packet[0] as int && packet[0] as int <= skbs
            then t == h.(level := packet[3] as int, stopped := h.stopped && packet[3] as int <= 11)
            else t == h
    ensures var ps := Passed(packet, skbs);
            if |packet| >= 4 && |packet| >= 4 + 13 * packet[0] as int
            then |ps| == (if packet[0] as int <= skbs then packet[0] as int else skbs) &&
                 forall i | 0 <= i < |ps| :: ps[i] == packet[4 + 13 * i..17 + 13 * i]
            else ps == []
  {
  }
}
