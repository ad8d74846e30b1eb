/** The three ways to lose a wakeup are real: runs from probe's own initial
    state, with reports as fresh as can be, that orphan the queue. What can
    still bring it back is a frame from the CAN; nothing can if no read URB is
    left. */
module PipelineStranded {
  import opened Wire
  import opened Endpoint
  import opened BufferSpec
  import opened HostSpec
  import opened Pipeline
  import opened PipelineInvariant
  import opened PipelineTheorems
  import opened PipelineProgress
  import opened PipelineOverflow
  import opened PipelineContexts

  lemma ReachedInv(t: State, h: Hypothesis)
    requires Reaches(Start(), t, h)
    ensures BaseInv(t)
    ensures !t.stalled ==> StopInv(t)
  {
    StartIsReached(h);
    InitInv(Start(), h);
    var run :| IsRun(Start(), run) && FreshRun(Start(), run, h) && Exec(Start(), run) == t;
    BaseRun(Start(), run);
    if !t.stalled {
      StopRun(Start(), run);
    }
  }

  lemma LateDrains(t: State, k: nat, level: int, stopped: bool)
    requires BaseInv(t) && Late(t, k, level, stopped)
    ensures DrainInv(t) && Current(t)
  {
  }

  lemma ReachesOn(s: State, t: State, more: seq<Event>, h: Hypothesis)
    requires Reaches(s, t, h) && IsRun(t, more) && FreshRun(t, more, h)
    ensures Reaches(s, Exec(t, more), h)
  {
    var run :| IsRun(s, run) && FreshRun(s, run, h) && Exec(s, run) == t;
    RunConcat(s, run, more);
    assert IsRun(s, run + more);
  }

  /** The pipeline empties while write callbacks are still due; with `lossy`
      every report is dropped. */
  lemma Emptied(t: State, k: nat, stopped: bool, lossy: bool, h: Hypothesis) returns (u: State)
    requires Reaches(Start(), t, h) && Late(t, k, INITIAL_BUFFER_LEVEL - k, stopped)
    ensures Reaches(Start(), u, h) && Drains(t, u, lossy)
  {
    ReachedInv(t, h);
    LateDrains(t, k, INITIAL_BUFFER_LEVEL - k, stopped);
    var more := PipelineProgress.Drain(t, lossy);
    ReachesOn(Start(), t, more, h);
    u := Exec(t, more);
  }

  // ----- a failed submit -----------------------------------------------------------------

  /** With seven write callbacks due the next frame stops the queue; if its
      submit fails, nothing is under way that could restart it. */
  lemma FailsAfterStop(t: State, h: Hypothesis) returns (u: State)
    requires Reaches(Start(), t, h) && Drained(t) && DrainInv(t) && !t.host.stopped
    requires t.host.active == MAX_TX_URBS - 1 && FirstFree(t.host.echo, 0) == MAX_TX_URBS - 1 < |t.host.echo|
    ensures Reaches(Start(), u, h) && Quiet(u) && !u.stalled && u.host.stopped && u.marks.stranded
    ensures u.readers == t.readers
  {
    u := Then(Start(), t, Check(SKB, JUNK), h);
    u := Then(Start(), u, Stop, h);
    u := Then(Start(), u, Charge, h);
    u := Then(Start(), u, Submit(false), h);
  }

  /** Under every hypothesis on the reports. */
  lemma FailedSubmitLosesWakeup(h: Hypothesis) returns (u: State)
    ensures Reaches(Start(), u, h) && Quiet(u) && !u.stalled && u.host.stopped && u.marks.stranded && u.readers > 0
  {
    StartIsReached(h);
    var k := MAX_TX_URBS - 1;
    var t := LateFrames(Start(), Start(), 0, k, h);
    NextContext(t.host, k);
    t := Emptied(t, k, false, false, h);
    u := FailsAfterStop(t, h);
  }

  // ----- dropped reports -----------------------------------------------------------------

  /** Eight frames stop the queue and are transmitted; the read callback finds no
      socket buffer, or an error status, for each report on them. */
  lemma DroppedReportsLoseWakeup(h: Hypothesis) returns (u: State)
    ensures Reaches(Start(), u, h) && Quiet(u) && !u.stalled && u.host.stopped && u.readers > 0
    ensures u.marks.deaf && !u.marks.stranded && !u.marks.voided && u.leaked == []
  {
    StartIsReached(h);
    var t := LateFrames(Start(), Start(), 0, MAX_TX_URBS, h);
    u := Emptied(t, MAX_TX_URBS, true, true, h);
    ReachedInv(u, h);
    QuietStop(u);
  }

  // ----- frames lost on the bus ------------------------------------------------------------

  /** `k` URBs have failed, one after the other. */
  ghost predicate Void(s: State, k: nat) {
    LateHost(s, k, INITIAL_BUFFER_LEVEL - k, k == MAX_TX_URBS) &&
    s.buffer == Start().buffer && s.transit == [] &&
    s.marks == (if k == MAX_TX_URBS then UNMARKED.(voided := true) else UNMARKED)
  }

  lemma VoidFrame(t: State, k: nat, h: Hypothesis) returns (u: State)
    requires Reaches(Start(), t, h) && k < MAX_TX_URBS && Void(t, k)
    ensures Reaches(Start(), u, h) && Void(u, k + 1)
  {
    u := LateSubmit(Start(), t, k, h);
    u := Then(Start(), u, Abort, h);
  }

  lemma {:induction false} VoidFrames(t: State, k: nat, h: Hypothesis) returns (u: State)
    requires Reaches(Start(), t, h) && k <= MAX_TX_URBS && Void(t, k)
    ensures Reaches(Start(), u, h) && Void(u, MAX_TX_URBS)
    decreases MAX_TX_URBS - k
  {
    u := t;
    if k < MAX_TX_URBS {
      u := VoidFrame(t, k, h);
      u := VoidFrames(u, k + 1, h);
    }
  }

  lemma LostFramesLoseWakeup(h: Hypothesis) returns (u: State)
    ensures Reaches(Start(), u, h) && Quiet(u) && !u.stalled && u.host.stopped && u.readers > 0
    ensures u.marks == UNMARKED.(voided := true) && u.leaked == []
  {
    StartIsReached(h);
    u := VoidFrames(Start(), 0, h);
  }

  // ----- for good -----------------------------------------------------------------------------

  /** Whatever happens next, the queue stays stopped. */
  ghost predicate Dead(t: State) {
    forall more | IsRun(t, more) :: Exec(t, more).host.stopped
  }

  predicate NobodyListens(t: State) {
    t.host.stopped && t.readers == 0 && !WakeDue(t)
  }

  lemma NobodyListensStep(s: State, e: Event)
    requires NobodyListens(s) && Enabled(s, e)
    ensures NobodyListens(Step(s, e))
  {
    if InDriver(e) {
      NobodyListensDriver(s, e);
    } else if !InRead(e) {
      FirmwareFrame(s, e);
    }
  }

  lemma NobodyListensDriver(s: State, e: Event)
    requires NobodyListens(s) && Enabled(s, e) && InDriver(e)
    ensures NobodyListens(Step(s, e))
  {
  }

  lemma {:induction false} NobodyListensRun(s: State, run: seq<Event>)
    requires NobodyListens(s) && IsRun(s, run)
    ensures NobodyListens(Exec(s, run))
    decreases |run|
  {
    if run != [] {
      NobodyListensStep(s, run[0]);
      NobodyListensRun(Step(s, run[0]), run[1..]);
    }
  }

  /** Main-loop steps from here to the next read of the CAN controller. */
  function ToTake(phase: Phase): nat {
    match phase
    case AtTake => 0
    case AtSend => 1
    case AtPrepare => 2
    case AtReport => 3
    case AtError => 4
  }

  lemma {:induction false} Idle(u: State) returns (more: seq<Event>)
    requires DrainInv(u) && Drained(u)
    ensures IsRun(u, more) && var v := Exec(u, more); DrainInv(v) && v.readers == u.readers && v.phase.AtTake?
    decreases ToTake(u.phase)
  {
    more := [];
    if !u.phase.AtTake? {
      var e := LoopEvent(u.phase);
      assert Enabled(u, e) && !Productive(u, e);
      EveryStep(u, e);
      IdleFrame(u);
      var rest := Idle(Step(u, e));
      more := [e] + rest;
      assert more[1..] == rest;
    }
  }

  lemma Receives(v: State, frame: Packet)
    requires DrainInv(v) && v.phase.AtTake? && CanTake(v.buffer)
    ensures Enabled(v, TakeFrame([frame]))
    ensures var w := Step(v, TakeFrame([frame])); DrainInv(w) && !Drained(w) && w.readers == v.readers
  {
    BaseStep(v, TakeFrame([frame]));
  }

  /** A frame from the CAN makes a report, and the report starts the queue. */
  lemma FrameRevives(u: State) returns (more: seq<Event>)
    requires DrainInv(u) && Drained(u) && u.readers > 0
    ensures IsRun(u, more) && var w := Exec(u, more); Drained(w) && DrainInv(w) && !Orphaned(w.marks)
  {
    var idle := Idle(u);
    var v := Exec(u, idle);
    if CanTake(v.buffer) {
      var frame := EncodeFrame(SKB, JUNK);
      Receives(v, frame);
      var w := Step(v, TakeFrame([frame]));
      var rest := PipelineProgress.Drain(w, false);
      var onward := [TakeFrame([frame])] + rest;
      assert onward[1..] == rest;
      assert Exec(v, onward) == Exec(w, rest);
      RunConcat(u, idle, onward);
      more := idle + onward;
    } else {
      var rest := PipelineProgress.Drain(v, false);
      RunConcat(u, idle, rest);
      more := idle + rest;
    }
  }

  lemma Revives(s: State, run: seq<Event>, h: Hypothesis) returns (more: seq<Event>)
    requires Init(s) && IsRun(s, run) && FreshRun(s, run, h) && h.bound <= Tolerated(h)
    requires Exec(s, run).readers > 0
    ensures IsRun(Exec(s, run), more) && !Exec(Exec(s, run), more).host.stopped
  {
    InitInv(s, h);
    SafeRun(s, run, h);
    var t := Exec(s, run);
    var first := EmptyOut(t, h);
    var second := FrameRevives(Exec(t, first));
    RunConcat(t, first, second);
    more := first + second;
    RunConcat(s, run, more);
    QueueStopsIff(s, run + more);
  }

  /** After any fresh run a stopped queue is stopped for good if and only if no
      read URB is left and no wake test is due that would start it. */
  lemma QueueIsDeadIff(s: State, run: seq<Event>, h: Hypothesis)
    requires Init(s) && IsRun(s, run) && FreshRun(s, run, h) && h.bound <= Tolerated(h)
    ensures Dead(Exec(s, run)) <==> NobodyListens(Exec(s, run))
  {
    var t := Exec(s, run);
    if NobodyListens(t) {
      forall more | IsRun(t, more)
        ensures Exec(t, more).host.stopped
      {
        NobodyListensRun(t, more);
      }
    } else if t.readers > 0 {
      var more := Revives(s, run, h);
    } else {
      InitInv(s, h);
      BaseRun(s, run);
      WakesOrRuns(t);
    }
  }

  lemma WakesOrRuns(t: State)
    requires BaseInv(t) && (!t.host.stopped || WakeDue(t))
    ensures !Dead(t)
  {
    if !t.host.stopped {
      assert IsRun(t, []) && Exec(t, []) == t;
    } else {
      assert Enabled(t, Wake);
      assert [Wake][1..] == [];
      assert IsRun(Step(t, Wake), []) && Exec(Step(t, Wake), []) == Step(t, Wake);
      assert IsRun(t, [Wake]) && Exec(t, [Wake]) == Step(t, Wake);
    }
  }
}
