/** Whole-run theorems about the pipeline. */
module PipelineTheorems {
  import opened Wire
  import opened Endpoint
  import opened BufferSpec
  import opened HostSpec
  import opened Pipeline
  import opened PipelineInvariant

  // ----- runs ---------------------------------------------------------------

  lemma {:induction false} RunConcat(s: State, a: seq<Event>, b: seq<Event>)
    requires IsRun(s, a) && IsRun(Exec(s, a), b)
    ensures IsRun(s, a + b) && Exec(s, a + b) == Exec(Exec(s, a), b)
    ensures forall h | FreshRun(s, a, h) && FreshRun(Exec(s, a), b, h) :: FreshRun(s, a + b, h)
    decreases |a|
  {
    if a == [] {
      assert a + b == b;
    } else {
      assert (a + b)[1..] == a[1..] + b;
      RunConcat(Step(s, a[0]), a[1..], b);
    }
  }

  lemma OneStep(s: State, e: Event)
    requires Enabled(s, e)
    ensures IsRun(s, [e]) && Exec(s, [e]) == Step(s, e)
  {
    assert [e][1..] == [];
    assert IsRun(Step(s, e), []) && Exec(Step(s, e), []) == Step(s, e);
  }

  lemma OneMore(s: State, run: seq<Event>, e: Event)
    requires IsRun(s, run) && Enabled(Exec(s, run), e)
    ensures IsRun(s, run + [e]) && Exec(s, run + [e]) == Step(Exec(s, run), e)
  {
    OneStep(Exec(s, run), e);
    RunConcat(s, run, [e]);
  }

  lemma InitInv(s: State, h: Hypothesis)
    requires Init(s)
    ensures SafeInv(s, h)
  {
    assert Pending(s) == [Snap(0, 0), Snap(0, 0)];
  }

  lemma {:induction false} BaseRun(s: State, run: seq<Event>)
    requires BaseInv(s) && IsRun(s, run)
    ensures BaseInv(Exec(s, run))
    decreases |run|
  {
    if run != [] {
      BaseStep(s, run[0]);
      BaseRun(Step(s, run[0]), run[1..]);
    }
  }

  lemma {:induction false} SafeRun(s: State, run: seq<Event>, h: Hypothesis)
    requires SafeInv(s, h) && IsRun(s, run) && FreshRun(s, run, h) && h.bound <= Tolerated(h)
    ensures SafeInv(Exec(s, run), h)
    decreases |run|
  {
    if run != [] {
      SafeStep(s, run[0], h);
      SafeRun(Step(s, run[0]), run[1..], h);
    }
  }

  // ----- credit safety ------------------------------------------------------

  /** Room for every frame the driver has submitted or charged. */
  predicate Fits(s: State) {
    |s.buffer.queue| + |s.bank| + |s.wire| + |InXmit(s.host)| <= TX_SLOTS
  }

  /** A packet in EP1's FIFO finds a receive armed for a whole frame. */
  predicate Armed(s: State) {
    s.bank != [] ==> s.buffer.ep1.xfer == Receiving([], FRAME_SIZE, BufferTxDone) && |s.buffer.queue| < TX_SLOTS
  }

  ghost predicate NeverOverflows(h: Hypothesis) {
    forall s, run | Init(s) && IsRun(s, run) && FreshRun(s, run, h) ::
      var t := Exec(s, run); Fits(t) && Armed(t) && !t.stalled
  }

  lemma CreditSafety(s: State, run: seq<Event>, h: Hypothesis)
    requires Init(s) && IsRun(s, run) && FreshRun(s, run, h) && h.bound <= Tolerated(h)
    ensures var t := Exec(s, run); Fits(t) && Armed(t) && !t.stalled
  {
    InitInv(s, h);
    SafeRun(s, run, h);
    OccupancyBound(Exec(s, run), h);
  }

  // ----- order and conservation ---------------------------------------------

  predicate IsPrefix<T(==)>(a: seq<T>, b: seq<T>) {
    |a| <= |b| && a == b[..|a|]
  }

  /** Out of what has left the wire and was not lost. */
  predicate OutgoingInOrder(t: State) {
    t.sent == FramesOf(t.crossed) + Bytes(t.wire) &&
    (!t.stalled ==> Kept(t.crossed) == t.loaded + t.buffer.queue + t.bank)
  }

  /** The frames submitted have left the wire or are on it, in order. As long as
      EP1 has not stalled, those that have left it and were not lost on the
      bus are given to the controller, in order and once; the last of them may
      still be in the ring and in EP1's FIFO. */
  lemma TransmitOrder(s: State, run: seq<Event>)
    requires Init(s) && IsRun(s, run)
    ensures OutgoingInOrder(Exec(s, run))
  {
    InitInv(s, Hypothesis(0, true));
    BaseRun(s, run);
  }

  predicate AllKept(fs: seq<Fate>) {
    forall f | f in fs :: f.kept
  }

  lemma {:induction false} AllKeptIsAll(fs: seq<Fate>)
    requires AllKept(fs)
    ensures Kept(fs) == FramesOf(fs)
    decreases |fs|
  {
    if fs != [] {
      var init := fs[..|fs| - 1];
      AllKeptIsAll(init);
      assert FramesOf(fs) == FramesOf(init) + [fs[|fs| - 1].frame];
    }
  }

  lemma {:induction false} LosslessRun(s: State, run: seq<Event>, out: bool)
    requires IsRun(s, run) && AllKept(if out then s.crossed else s.handed)
    requires forall e | e in run :: if out then !e.Abort? else !e.Drop?
    ensures AllKept(if out then Exec(s, run).crossed else Exec(s, run).handed)
    decreases |run|
  {
    if run != [] {
      assert run[0] in run;
      if out {
        LosslessOut(s, run[0]);
      } else {
        LosslessIn(s, run[0]);
      }
      LosslessRun(Step(s, run[0]), run[1..], out);
    }
  }

  lemma LosslessOut(s: State, e: Event)
    requires Enabled(s, e) && AllKept(s.crossed) && !e.Abort?
    ensures AllKept(Step(s, e).crossed)
  {
  }

  lemma LosslessIn(s: State, e: Event)
    requires Enabled(s, e) && AllKept(s.handed) && !e.Drop?
    ensures AllKept(Step(s, e).handed)
  {
  }

  /** Losses have a cause: without a failing URB no frame is lost on the bus,
      without a dropped report none in the read callback. */
  lemma NothingLost(s: State, run: seq<Event>)
    requires Init(s) && IsRun(s, run)
    ensures (forall e | e in run :: !e.Abort?) ==> AllKept(Exec(s, run).crossed)
    ensures (forall e | e in run :: !e.Drop?) ==> AllKept(Exec(s, run).handed)
  {
    if forall e | e in run :: !e.Abort? {
      LosslessRun(s, run, true);
    }
    if forall e | e in run :: !e.Drop? {
      LosslessRun(s, run, false);
    }
  }

  /** Packets mean the socket buffers they were made from. */
  ghost predicate MeaningInv(s: State) {
    (s.host.xmit.NoXmit? ||
     (HasDlc(s.host.xmit.pending.bytes) && DecodeFrame(s.host.xmit.pending.bytes) == s.current)) &&
    (forall p | p in s.sent :: HasDlc(p)) && DecodeAll(s.sent) == s.submitted
  }

  lemma MeaningSubmit(s: State, ok: bool)
    requires MeaningInv(s) && Enabled(s, Submit(ok))
    ensures MeaningInv(Step(s, Submit(ok)))
  {
    if ok {
      assert DecodeAll(s.sent + [s.host.xmit.pending.bytes]) == DecodeAll(s.sent) + [s.current];
    }
  }

  /** Nothing else sends, and only Check starts on another socket buffer. */
  lemma MeaningDriver(s: State, e: Event)
    requires MeaningInv(s) && Enabled(s, e) && InDriver(e) && !e.Submit?
    ensures MeaningInv(Step(s, e))
  {
    match e
    case Check(skb, junk) => FrameRoundTrip(skb, junk);
    case _ =>
  }

  lemma MeaningStep(s: State, e: Event)
    requires MeaningInv(s) && Enabled(s, e)
    ensures MeaningInv(Step(s, e))
  {
    if e.Submit? {
      MeaningSubmit(s, e.ok);
    } else if InDriver(e) {
      MeaningDriver(s, e);
    } else {
      MeaningElsewhere(s, e);
    }
  }

  lemma MeaningRead(s: State, e: Event)
    requires Enabled(s, e) && InRead(e)
    ensures var t := Step(s, e);
            t.host.xmit == s.host.xmit && t.sent == s.sent && t.submitted == s.submitted && t.current == s.current
  {
  }

  lemma MeaningElsewhere(s: State, e: Event)
    requires MeaningInv(s) && Enabled(s, e) && !InDriver(e)
    ensures MeaningInv(Step(s, e))
  {
    if InRead(e) {
      MeaningRead(s, e);
    } else {
      FirmwareFrame(s, e);
    }
  }

  lemma {:induction false} MeaningRun(s: State, run: seq<Event>)
    requires MeaningInv(s) && IsRun(s, run)
    ensures MeaningInv(Exec(s, run))
    decreases |run|
  {
    if run != [] {
      MeaningStep(s, run[0]);
      MeaningRun(Step(s, run[0]), run[1..]);
    }
  }

  /** The packets submitted are, identifier, DLC and data, the frames the
      network stack handed to the driver and the driver submitted; with
      TransmitOrder the controller is given just these, less those lost. */
  lemma TransmitMeaning(s: State, run: seq<Event>)
    requires Init(s) && IsRun(s, run)
    ensures var t := Exec(s, run);
            && (forall p | p in FramesOf(t.crossed) :: HasDlc(p))
            && IsPrefix(DecodeAll(FramesOf(t.crossed)), t.submitted)
  {
    TransmitOrder(s, run);
    MeaningRun(s, run);
    MeaningPrefix(Exec(s, run));
  }

  lemma MeaningPrefix(t: State)
    requires MeaningInv(t) && WireFifo(t)
    ensures forall p | p in FramesOf(t.crossed) :: HasDlc(p)
    ensures IsPrefix(DecodeAll(FramesOf(t.crossed)), t.submitted)
  {
    var out := FramesOf(t.crossed);
    assert out == t.sent[..|out|];
    forall p | p in out
      ensures HasDlc(p)
    {
      assert p in t.sent;
    }
    assert DecodeAll(out) == DecodeAll(t.sent)[..|out|];
  }

  /** Frames read from the controller reach the read callback in order, none
      lost or repeated, in every run; from there the network stack is given
      the kept ones. */
  lemma ReceiveOrder(s: State, run: seq<Event>)
    requires Init(s) && IsRun(s, run)
    ensures var t := Exec(s, run);
            t.taken == FramesOf(t.handed) + FramesIn(t.transit) + FramesStaged(t.buffer) + t.buffer.filling
  {
    InitInv(s, Hypothesis(0, true));
    BaseRun(s, run);
  }

  /** What a read callback passes on to netif_rx: all frames of its report, or
      those in front of the one it stopped at. */
  lemma PassedOn(s: State, e: Event)
    requires FlowInv(s) && Enabled(s, e) && (e.Set? || e.Drop?)
    ensures var frames := Carried(s.transit[0]);
            && Kept(Step(s, e).handed) == Kept(s.handed) + (if e.Set? then frames else frames[..e.k])
            && FramesOf(Step(s, e).handed) == FramesOf(s.handed) + frames
  {
    var frames := Carried(s.transit[0]);
    var k := if e.Set? then |frames| else e.k;
    KeptMark(s.handed, frames, k);
    FatesMark(s.handed, frames, k);
    if e.Set? {
      SetFrame(s);
      assert frames[..|frames|] == frames;
    } else {
      DropFrame(s, e.k, e.again);
    }
  }

  /** usb_io is never called on a busy EP1 or EP2. */
  lemma BulkEndpointsNeverBug(s: State, run: seq<Event>)
    requires Init(s) && IsRun(s, run)
    ensures !Exec(s, run).buffer.ep1.bug && !Exec(s, run).buffer.ep2.bug
  {
    InitInv(s, Hypothesis(0, true));
    BaseRun(s, run);
  }

  // ----- no lost wakeup -----------------------------------------------------

  /** No report is due, held by EP2, in transit or half processed. */
  predicate Reported(s: State) {
    !s.buffer.update && s.buffer.ep2.xfer.Idle? && s.transit == [] && s.host.waking == []
  }

  /** Nothing will happen on the transmit path unless the queue runs. */
  predicate Quiet(s: State) {
    Reported(s) && s.buffer.queue == [] && s.bank == [] && s.wire == [] && s.host.xmit.NoXmit?
  }

  /** A stopped queue has a reason that a report will take away: a frame newer
      than the last report dealt with, a report that left little room, or one
      of the exceptions. */
  ghost predicate StopInv(s: State) {
    (s.host.stopped && s.host.waking == [] ==>
       || Orphaned(s.marks)
       || Charges(s) + (if s.host.xmit.Acted? then 1 else 0) > s.view.front.entered
       || Free(s.view.front) <= MAX_TX_URBS + 3) &&
    HaltInv(s)
  }

  /** Who has stopped the queue. */
  ghost predicate HaltInv(s: State) {
    (Orphaned(s.marks) ==> s.host.stopped) &&
    match s.host.xmit
    case NoXmit => !s.marks.halting
    case Checked(_, _) => !s.marks.halting && !s.host.stopped
    case Acted(_) => s.marks.halting == s.host.stopped
    case Charged(_) => s.marks.halting == s.host.stopped
  }

  lemma ChargesCoverEntered(s: State)
    requires BaseInv(s) && !s.stalled
    ensures s.view.front.entered <= Entered(s) <= Charges(s)
  {
    LastSnapFirst(s);
  }

  lemma StopDriver(s: State, e: Event)
    requires BaseInv(s) && Enabled(s, e) && StopInv(s) && InDriver(e) && !e.Abort? && !s.stalled
    ensures StopInv(Step(s, e))
  {
    ChargesCoverEntered(s);
    DriverFrame(s, e);
  }

  lemma StopAbort(s: State)
    requires Enabled(s, Abort) && StopInv(s)
    ensures StopInv(Step(s, Abort))
  {
  }

  lemma StopRead(s: State, e: Event)
    requires BaseInv(s) && Enabled(s, e) && StopInv(s) && InRead(e)
    ensures StopInv(Step(s, e))
  {
    if e.Set? {
      SetFrame(s);
    } else if e.Drop? {
      DropFrame(s, e.k, e.again);
    }
  }

  lemma StopStep(s: State, e: Event)
    requires BaseInv(s) && Enabled(s, e) && StopInv(s) && !s.stalled
    ensures StopInv(Step(s, e))
  {
    if e.Abort? {
      StopAbort(s);
    } else if InDriver(e) {
      StopDriver(s, e);
    } else if InRead(e) {
      StopRead(s, e);
    } else {
      FirmwareFrame(s, e);
    }
  }

  lemma StallIsForever(s: State, e: Event)
    requires Enabled(s, e) && s.stalled
    ensures Step(s, e).stalled
  {
  }

  lemma {:induction false} StallIsForeverRun(s: State, run: seq<Event>)
    requires IsRun(s, run) && s.stalled
    ensures Exec(s, run).stalled
    decreases |run|
  {
    if run != [] {
      StallIsForever(s, run[0]);
      StallIsForeverRun(Step(s, run[0]), run[1..]);
    }
  }

  lemma {:induction false} StopRun(s: State, run: seq<Event>)
    requires BaseInv(s) && StopInv(s) && IsRun(s, run) && !Exec(s, run).stalled
    ensures StopInv(Exec(s, run))
    decreases |run|
  {
    if run != [] {
      if s.stalled {
        StallIsForeverRun(s, run);
      }
      BaseStep(s, run[0]);
      StopStep(s, run[0]);
      StopRun(Step(s, run[0]), run[1..]);
    }
  }

  /** The free_slots of the last report dealt with, processed or dropped. */
  function LastFree(v: View): seq<int> {
    if v.missed != [] then v.missed[|v.missed| - 1..] else if v.told != [] then v.told[|v.told| - 1..] else []
  }

  /** It is the free space of the ring; the driver knows it if that report was
      not dropped. */
  predicate ToldTruly(t: State) {
    LastFree(t.view) == [] || LastFree(t.view) == [TX_SLOTS - |t.buffer.queue|]
  }

  lemma NewestIsCurrent(t: State)
    requires BaseInv(t) && Reported(t)
    ensures t.view.front == Now(t) && ToldTruly(t)
  {
    assert Pending(t) == [t.view.last, t.view.front];
  }

  /** Once every change of the ring has been reported, the last report dealt
      with was true of the ring as it is. */
  lemma LastReportIsCurrent(s: State, run: seq<Event>)
    requires Init(s) && IsRun(s, run) && Reported(Exec(s, run))
    ensures ToldTruly(Exec(s, run))
  {
    InitInv(s, Hypothesis(0, true));
    BaseRun(s, run);
    NewestIsCurrent(Exec(s, run));
  }

  /** With nothing under way that could restart it, the queue is stopped if
      and only if one of three things has happened to it that no wake test has
      undone since: the submit of the frame that stopped it failed, a report
      that would have started it was dropped while it was stopped, or a frame
      was lost on the bus while it was stopped. */
  lemma QueueStopsIff(s: State, run: seq<Event>)
    requires Init(s) && IsRun(s, run)
    requires var t := Exec(s, run); Quiet(t) && !t.stalled
    ensures Exec(s, run).host.stopped <==> Orphaned(Exec(s, run).marks)
  {
    InitInv(s, Hypothesis(0, true));
    BaseRun(s, run);
    StopRun(s, run);
    QuietStop(Exec(s, run));
  }

  lemma QuietStop(t: State)
    requires BaseInv(t) && StopInv(t) && Quiet(t) && !t.stalled
    ensures t.host.stopped <==> Orphaned(t.marks)
  {
    NewestIsCurrent(t);
  }

  /** Fresh reports also exclude the stall, so the two theorems together need
      no assumption about the state reached. */
  lemma FreshRunsKeepTheQueueAlive(s: State, run: seq<Event>, h: Hypothesis)
    requires Init(s) && IsRun(s, run) && FreshRun(s, run, h) && h.bound <= Tolerated(h)
    requires Quiet(Exec(s, run))
    ensures Exec(s, run).host.stopped <==> Orphaned(Exec(s, run).marks)
  {
    CreditSafety(s, run, h);
    QueueStopsIff(s, run);
  }
}
