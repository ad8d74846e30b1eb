/** How many frames a report carries: while EP2 is busy the main loop goes round
    without handing a report over, and the frames it reads gather in one. */
module ReportRuns {
  import opened Wire
  import opened Endpoint
  import opened BufferSpec
  import opened Pipeline
  import opened PipelineInvariant
  import opened PipelineTheorems
  import BufferMemory

  /** A frame is refused only if struct usb_rx_buffer has no room behind the
      frames already in it. */
  lemma RoomIsMemory(b: Buffer)
    ensures CanTake(b) <==> HEADER_SIZE + FRAME_SIZE * (|b.filling| + 1) <= BufferMemory.RX_STRUCT
  {
  }

  /** What the controller has to offer at a step of the main loop. */
  function Offer(e: Event): seq<Packet> {
    match e
    case TakeFrame(frame) => frame
    case TakeError(frame) => frame
    case _ => []
  }

  function Offered(run: seq<Event>): seq<Packet> {
    if run == [] then [] else Offer(run[0]) + Offered(run[1..])
  }

  predicate Busy(s: State) {
    s.buffer.ep2.xfer.Sending? && |s.buffer.filling| <= RX_MAX_FRAMES
  }

  /** As many of the frames offered as there is room for. */
  function Fitting(s: State, offered: seq<Packet>): (ps: seq<Packet>)
    requires |s.buffer.filling| <= RX_MAX_FRAMES
  {
    offered[..Min(|offered|, RX_MAX_FRAMES - |s.buffer.filling|)]
  }

  ghost predicate Gathered(s: State, t: State, ps: seq<Packet>) {
    t.buffer.ep2 == s.buffer.ep2 && t.buffer.filling == s.buffer.filling + ps && t.taken == s.taken + ps
  }

  predicate InDevice(e: Event) {
    e.Prepare? || e.SendFrame? || e.MakeReport?
  }

  /** Only the two take steps of the main loop read frames. */
  lemma DeviceKeeps(s: State, e: Event)
    requires Busy(s) && Enabled(s, e) && InDevice(e)
    ensures Gathered(s, Step(s, e), [])
  {
  }

  lemma ElsewhereKeeps(s: State, e: Event)
    requires Enabled(s, e) && !InDevice(e) && !e.Ep2? && !e.TakeFrame? && !e.TakeError? && !e.Ep1?
    ensures Gathered(s, Step(s, e), [])
  {
    assert Step(s, e).buffer == s.buffer;
  }

  lemma Ep1Keeps(s: State)
    requires Enabled(s, Ep1)
    ensures Gathered(s, Step(s, Ep1), [])
  {
    var (b, refused) := Ep1Interrupt(s.buffer, s.bank[0]);
    assert b.ep2 == s.buffer.ep2 && b.filling == s.buffer.filling;
  }

  lemma TakeGathers(s: State, frame: seq<Packet>)
    requires Busy(s) && |frame| <= 1
    ensures Busy(Take(s, frame)) && Gathered(s, Take(s, frame), Fitting(s, frame))
  {
  }

  lemma GatherStep(s: State, e: Event)
    requires Busy(s) && Enabled(s, e) && !e.Ep2?
    ensures Busy(Step(s, e)) && Gathered(s, Step(s, e), Fitting(s, Offer(e)))
  {
    if e.TakeFrame? {
      TakeGathers(s, e.frame);
    } else if e.TakeError? {
      TakeGathers(s, e.frame);
    } else if e.Ep1? {
      Ep1Keeps(s);
    } else if InDevice(e) {
      DeviceKeeps(s, e);
    } else {
      ElsewhereKeeps(s, e);
    }
  }

  /** Taking in two steps is taking at once. */
  lemma GatherTwice(s: State, t: State, u: State, a: seq<Packet>, b: seq<Packet>)
    requires Busy(s) && Busy(t) && |a| <= 1 && Gathered(s, t, Fitting(s, a)) && Gathered(t, u, Fitting(t, b))
    ensures Gathered(s, u, Fitting(s, a + b))
  {
    var fa, fb := Fitting(s, a), Fitting(t, b);
    if |a| == 1 && |s.buffer.filling| == RX_MAX_FRAMES {
      assert fb == [] && Fitting(s, a + b) == [];
    }
    assert fa + fb == Fitting(s, a + b);
    assert s.buffer.filling + fa + fb == s.buffer.filling + (fa + fb) && s.taken + fa + fb == s.taken + (fa + fb);
  }

  /** Whatever happens while EP2 is busy, the frames the controller offers are
      read and gathered in order until there are four; not one less. */
  lemma {:induction false} GatherRun(s: State, run: seq<Event>)
    requires Busy(s) && IsRun(s, run) && forall e | e in run :: !e.Ep2?
    ensures Busy(Exec(s, run)) && Gathered(s, Exec(s, run), Fitting(s, Offered(run)))
    decreases |run|
  {
    if run != [] {
      assert run[0] in run;
      var t := Step(s, run[0]);
      GatherStep(s, run[0]);
      GatherRun(t, run[1..]);
      GatherTwice(s, t, Exec(t, run[1..]), Offer(run[0]), Offered(run[1..]));
    }
  }

  /** Handed over, they are what EP2 holds. */
  lemma HandOver(t: State)
    requires FlowInv(t) && Enabled(t, Ep2) && t.phase.AtReport? && t.buffer.filling != []
    ensures IsRun(t, [Ep2] + [MakeReport])
    ensures FramesStaged(Exec(t, [Ep2] + [MakeReport]).buffer) == t.buffer.filling
  {
    Ep2Frame(t);
    ReportRoundTrip(FreeSlots(t.buffer), t.buffer.filling);
    OneStep(t, Ep2);
    OneMore(t, [Ep2], MakeReport);
  }

  lemma FourGather(s: State, run: seq<Event>, t: State)
    requires Busy(s) && s.buffer.filling == [] && IsRun(s, run) && t == Exec(s, run) && forall e | e in run :: !e.Ep2?
    requires |Offered(run)| >= 4
    ensures t.buffer.ep2 == s.buffer.ep2 && t.buffer.filling == Offered(run)[..4] && t.taken == s.taken + Offered(run)[..4]
  {
    GatherRun(s, run);
  }

  lemma Reachable(s0: State, run: seq<Event>)
    requires Init(s0) && IsRun(s0, run)
    ensures BaseInv(Exec(s0, run))
  {
    InitInv(s0, Hypothesis(0, true));
    BaseRun(s0, run);
  }

  /** In every life of the adapter: any four frames read while EP2 is busy, from
      a report with no frame in it yet, are all in the next report. */
  lemma FourFramesOneReport(s0: State, before: seq<Event>, s: State, run: seq<Event>, t: State)
    requires Init(s0) && IsRun(s0, before) && s == Exec(s0, before)
    requires s.buffer.ep2.xfer.Sending? && s.buffer.filling == []
    requires IsRun(s, run) && t == Exec(s, run) && (forall e | e in run :: !e.Ep2?)
    requires |Offered(run)| >= 4 && t.phase.AtReport?
    ensures t.taken == s.taken + Offered(run)[..4]
    ensures IsRun(t, [Ep2] + [MakeReport])
    ensures FramesStaged(Exec(t, [Ep2] + [MakeReport]).buffer) == Offered(run)[..4]
  {
    Reachable(s0, before);
    BaseRun(s, run);
    FourGather(s, run, t);
    HandOver(t);
  }
}
