/** The pipeline always comes to rest: without new work only so many steps can
    do anything, some such step is always within reach, and unless frames or
    reports get lost they lead to an empty pipeline with a running queue. */
module PipelineProgress {
  import opened Wire
  import opened Endpoint
  import opened BufferSpec
  import opened HostSpec
  import opened Pipeline
  import opened PipelineInvariant
  import opened PipelineTheorems

  /** No new socket buffer, no failed submit, nothing received from the CAN. */
  predicate NoNewWork(e: Event) {
    !e.Check? && e != Submit(false) && (e.TakeFrame? ==> e == TakeFrame([])) && (e.TakeError? ==> e == TakeError([]))
  }

  /** Nothing gets lost, and no read URB either. */
  predicate Lossless(e: Event) {
    !e.Drop? && !e.Abort? && !e.NoReader?
  }

  predicate NothingLostIn(run: seq<Event>) {
    forall e | e in run :: Lossless(e)
  }

  predicate OnlyOldWork(run: seq<Event>) {
    forall e | e in run :: NoNewWork(e)
  }

  /** Nothing left between the two ends, in either direction. */
  predicate Drained(s: State) {
    Quiet(s) && s.buffer.filling == []
  }

  /** start_xmit is not running, and everything under way to EP1 will find a
      receive armed. */
  ghost predicate DrainInv(s: State) {
    BaseInv(s) && !s.stalled && s.host.xmit.NoXmit? &&
    |s.buffer.queue| + |s.bank| + |s.wire| <= TX_SLOTS &&
    (s.buffer.ep1.xfer.Idle? ==> s.wire == [] && s.bank == [])
  }

  // ----- the work to be done ------------------------------------------------------

  function One(b: bool): nat {
    if b then 1 else 0
  }

  function FrameWork(s: State): nat {
    3 * |s.wire| + 2 * |s.bank| + |s.buffer.queue|
  }

  function ReportDue(s: State): nat {
    One(s.buffer.update) + |s.buffer.filling|
  }

  function ReportWork(s: State): nat {
    3 * One(s.buffer.ep2.xfer.Sending?) + 2 * |s.transit| + |s.host.waking|
  }

  /** A frame that moves makes at most one report due, a report that is made
      has three stations to pass. */
  function Work(s: State): nat {
    5 * FrameWork(s) + 4 * ReportDue(s) + ReportWork(s)
  }

  lemma NoWorkIsDrained(s: State)
    requires DrainInv(s)
    ensures Work(s) == 0 <==> Drained(s)
  {
  }

  /** Steps that move a frame or a report. */
  predicate Productive(s: State, e: Event) {
    match e
    case Set => true
    case Drop(_, _) => true
    case Wake => true
    case UsbOut => true
    case Abort => true
    case Ep1 => true
    case Ep2 => true
    case SendFrame(txbufEmpty) => CanSend(s.buffer, txbufEmpty)
    case MakeReport => CanReport(s.buffer)
    case _ => false
  }

  /** Packets submitted and not lost. */
  function Alive(s: State): seq<Packet> {
    Kept(s.crossed) + Bytes(s.wire)
  }

  /** The driver keeps what it has, and its queue is not stopped. */
  ghost predicate Gentle(s: State, t: State) {
    Alive(t) == Alive(s) && t.readers == s.readers && t.leaked == s.leaked &&
    t.host.echo == s.host.echo && t.host.active == s.host.active && (t.host.stopped ==> s.host.stopped) &&
    (Orphaned(t.marks) ==> Orphaned(s.marks))
  }

  /** A step that moves something; if nothing gets lost the queue is restarted
      by the last report at the latest. */
  ghost predicate Does(s: State, e: Event, t: State) {
    DrainInv(t) && t.sent == s.sent && Work(t) < Work(s) &&
    (Lossless(e) ==> Gentle(s, t) && (Drained(t) ==> !Orphaned(t.marks)))
  }

  ghost predicate Idles(s: State, t: State) {
    DrainInv(t) && t.sent == s.sent && t.marks == s.marks && Alive(t) == Alive(s) && Work(t) == Work(s)
  }

  /** A step either does some of the work or leaves it as it is. */
  ghost predicate Handled(s: State, e: Event)
    requires Enabled(s, e)
  {
    if Productive(s, e) then Does(s, e, Step(s, e)) else Idles(s, Step(s, e))
  }

  lemma DoesSet(s: State)
    requires DrainInv(s) && Enabled(s, Set)
    ensures Handled(s, Set)
  {
    BaseStep(s, Set);
    SetFrame(s);
  }

  lemma DoesWake(s: State)
    requires DrainInv(s) && Enabled(s, Wake)
    ensures Handled(s, Wake)
  {
    BaseStep(s, Wake);
    if Drained(Step(s, Wake)) {
      NewestIsCurrent(Step(s, Wake));
    }
  }

  lemma DoesDrop(s: State, k: nat, again: bool)
    requires DrainInv(s) && Enabled(s, Drop(k, again))
    ensures Handled(s, Drop(k, again))
  {
    BaseStep(s, Drop(k, again));
    DropFrame(s, k, again);
  }

  lemma DoesAbort(s: State)
    requires DrainInv(s) && Enabled(s, Abort)
    ensures Handled(s, Abort)
  {
    BaseStep(s, Abort);
  }

  lemma DoesEp2(s: State)
    requires DrainInv(s) && Enabled(s, Ep2)
    ensures Handled(s, Ep2)
  {
    BaseStep(s, Ep2);
    Ep2Frame(s);
  }

  /** EP1 is left idle only by a frame that fills the ring. */
  lemma Ep1Rearms(s: State)
    requires FlowInv(s) && Enabled(s, Ep1) && s.buffer.ep1.xfer.Receiving?
    ensures var t := Step(s, Ep1);
            && (t.buffer.ep1.xfer.Idle? ==> |t.buffer.queue| == TX_SLOTS)
            && t.wire == s.wire && t.bank == [] && t.leaked == s.leaked && t.transit == s.transit
            && t.buffer.update && t.buffer.filling == s.buffer.filling
  {
    assert [] + s.bank[0] == s.bank[0];
  }

  lemma DoesEp1(s: State)
    requires DrainInv(s) && Enabled(s, Ep1)
    ensures Handled(s, Ep1)
  {
    BaseStep(s, Ep1);
    FlowEp1(s);
    InterruptFrame(s, Ep1);
    Ep1Rearms(s);
  }

  lemma AliveCrosses(s: State)
    requires Enabled(s, UsbOut)
    ensures Alive(Step(s, UsbOut)) == Alive(s)
  {
    FatesSnoc(s.crossed, Fate(s.wire[0].bytes, true));
    assert Bytes(s.wire) == [s.wire[0].bytes] + Bytes(s.wire[1..]);
  }

  lemma DoesUsbOut(s: State)
    requires DrainInv(s) && Enabled(s, UsbOut)
    ensures Handled(s, UsbOut)
  {
    BaseStep(s, UsbOut);
    AliveCrosses(s);
  }

  lemma SendsFrame(s: State, ready: bool)
    requires s.phase.AtSend?
    ensures var t := Step(s, SendFrame(ready));
            if CanSend(s.buffer, ready) then t == s.(buffer := TxSend(s.buffer), loaded := s.loaded + [s.buffer.queue[0]], phase := AtTake)
            else t == s.(phase := AtTake)
  {
  }

  lemma DoesSend(s: State, ready: bool)
    requires DrainInv(s) && Enabled(s, SendFrame(ready))
    ensures Handled(s, SendFrame(ready))
  {
    SendsFrame(s, ready);
    BaseStep(s, SendFrame(ready));
  }

  lemma MakeFrame(s: State)
    requires BaseInv(s) && s.phase.AtReport?
    ensures Enabled(s, MakeReport)
    ensures var t := Step(s, MakeReport);
            && t == s.(buffer := t.buffer, staged := t.staged, phase := AtPrepare)
            && t.buffer.queue == s.buffer.queue && t.buffer.ep1 == s.buffer.ep1
            && if CanReport(s.buffer) then ReportDue(t) == 0 && t.buffer.ep2.xfer.Sending? && t.staged == Now(s)
               else t.buffer == s.buffer && t.staged == s.staged
  {
  }

  lemma DoesMake(s: State)
    requires DrainInv(s) && s.phase.AtReport?
    ensures Enabled(s, MakeReport)
    ensures Handled(s, MakeReport)
  {
    MakeFrame(s);
    BaseStep(s, MakeReport);
  }

  lemma IdlesPrepare(s: State)
    requires DrainInv(s) && Enabled(s, Prepare)
    ensures Handled(s, Prepare)
  {
    BaseStep(s, Prepare);
  }

  lemma IdlesTake(s: State, e: Event)
    requires DrainInv(s) && Enabled(s, e) && (e == TakeFrame([]) || e == TakeError([]))
    ensures Handled(s, e)
  {
    BaseStep(s, e);
  }

  lemma IdlesCallback(s: State, e: Event)
    requires DrainInv(s) && Enabled(s, e) && (e.Completed? || e.Released? || e.NoReader?)
    ensures Handled(s, e)
  {
    BaseStep(s, e);
    DriverFrame(s, e);
  }

  /** Without new work every step either does some of the work or leaves it as
      it is; none adds any. */
  lemma EveryStep(s: State, e: Event)
    requires DrainInv(s) && Enabled(s, e) && NoNewWork(e)
    ensures Handled(s, e)
  {
    if InRead(e) {
      EveryRead(s, e);
    } else if e.UsbOut? || e.Abort? || e.Ep1? || e.Ep2? {
      EveryInterrupt(s, e);
    } else if InDriver(e) {
      IdlesCallback(s, e);
    } else {
      EveryLoop(s, e);
    }
  }

  lemma EveryRead(s: State, e: Event)
    requires DrainInv(s) && Enabled(s, e) && InRead(e)
    ensures Handled(s, e)
  {
    match e
    case Set => DoesSet(s);
    case Drop(k, again) => DoesDrop(s, k, again);
    case Wake => DoesWake(s);
  }

  lemma EveryInterrupt(s: State, e: Event)
    requires DrainInv(s) && Enabled(s, e) && (e.UsbOut? || e.Abort? || e.Ep1? || e.Ep2?)
    ensures Handled(s, e)
  {
    match e
    case UsbOut => DoesUsbOut(s);
    case Abort => DoesAbort(s);
    case Ep1 => DoesEp1(s);
    case Ep2 => DoesEp2(s);
  }

  lemma EveryLoop(s: State, e: Event)
    requires DrainInv(s) && Enabled(s, e) && NoNewWork(e)
    requires e.Prepare? || e.SendFrame? || e.TakeFrame? || e.TakeError? || e.MakeReport?
    ensures Handled(s, e)
  {
    if e.SendFrame? {
      DoesSend(s, e.txbufEmpty);
    } else if e.MakeReport? {
      DoesMake(s);
    } else if e.Prepare? {
      IdlesPrepare(s);
    } else {
      IdlesTake(s, e);
    }
  }

  /** The productive steps of a run. */
  function Steps(s: State, run: seq<Event>): nat
    requires IsRun(s, run)
    decreases |run|
  {
    if run == [] then 0 else One(Productive(s, run[0])) + Steps(Step(s, run[0]), run[1..])
  }

  /** In every run without new work, whatever its order: at most Work(s) steps
      move anything. If nothing gets lost on the way, all packets submitted
      stay alive, and if the pipeline is empty at the end and was not at the
      beginning, the queue is not orphaned. */
  lemma {:induction false} WorkIsBounded(s: State, run: seq<Event>)
    requires DrainInv(s) && IsRun(s, run) && OnlyOldWork(run)
    ensures var t := Exec(s, run);
            && DrainInv(t) && t.sent == s.sent
            && Steps(s, run) + Work(t) <= Work(s)
            && (NothingLostIn(run) ==> Alive(t) == Alive(s))
            && (NothingLostIn(run) && Drained(t) && Orphaned(t.marks) ==> Drained(s) && Orphaned(s.marks))
    decreases |run|
  {
    if run != [] {
      var next := Step(s, run[0]);
      assert run[0] in run;
      assert forall e | e in run[1..] :: e in run;
      EveryStep(s, run[0]);
      WorkIsBounded(next, run[1..]);
      if Drained(next) {
        NoWorkIsDrained(s);
        NoWorkIsDrained(next);
      }
    }
  }

  // ----- a productive step is always within reach ---------------------------------------

  function LoopEvent(phase: Phase): Event {
    match phase
    case AtPrepare => Prepare
    case AtSend => SendFrame(true)
    case AtTake => TakeFrame([])
    case AtError => TakeError([])
    case AtReport => MakeReport
  }

  /** Reports first (processed, or with `lossy` dropped), then packets, then
      the main loop. */
  function Next(s: State, lossy: bool): Event {
    if s.host.waking != [] then Wake
    else if s.transit != [] then (if lossy then Drop(0, true) else Set)
    else if s.buffer.ep2.xfer.Sending? then Ep2
    else if s.bank != [] then Ep1
    else if s.wire != [] then UsbOut
    else LoopEvent(s.phase)
  }

  function Place(phase: Phase): nat {
    match phase
    case AtPrepare => 4
    case AtSend => 3
    case AtTake => 2
    case AtError => 1
    case AtReport => 0
  }

  /** Main-loop steps to the next one that does something: a pop if there is a
      frame, otherwise a report. */
  function Distance(s: State): nat {
    if s.buffer.queue != [] then (Place(s.phase) + 2) % 5 else Place(s.phase)
  }

  lemma NextIsEnabled(s: State, lossy: bool)
    requires DrainInv(s) && s.readers > 0
    ensures var e := Next(s, lossy); Enabled(s, e) && NoNewWork(e) && (!lossy ==> Lossless(e))
  {
  }

  /** What an idle step of the main loop changes. */
  lemma IdleFrame(s: State)
    requires DrainInv(s) && Enabled(s, LoopEvent(s.phase)) && !Productive(s, LoopEvent(s.phase))
    ensures var t := Step(s, LoopEvent(s.phase));
            && t.phase == (match s.phase case AtPrepare => AtSend case AtSend => AtTake case AtTake => AtError
                                         case AtError => AtReport case AtReport => AtPrepare)
            && t == s.(phase := t.phase, buffer := s.buffer.(ep1 := t.buffer.ep1))
  {
  }

  /** At most four idle steps lead to a productive one. */
  lemma Advance(s: State, lossy: bool)
    requires DrainInv(s) && s.readers > 0 && !Drained(s)
    ensures Enabled(s, Next(s, lossy)) && NoNewWork(Next(s, lossy)) && (!lossy ==> Lossless(Next(s, lossy)))
    ensures var t := Step(s, Next(s, lossy));
            && DrainInv(t) && t.sent == s.sent
            && (Work(t) < Work(s) || (Work(t) == Work(s) && Distance(t) < Distance(s) <= 4))
            && (!lossy ==> Gentle(s, t) && (Drained(t) ==> !Orphaned(t.marks)))
  {
    NextIsEnabled(s, lossy);
    EveryStep(s, Next(s, lossy));
    if !Productive(s, Next(s, lossy)) {
      AdvanceIdle(s, lossy);
    }
  }

  lemma AdvanceIdle(s: State, lossy: bool)
    requires DrainInv(s) && s.readers > 0 && !Drained(s) && !Productive(s, Next(s, lossy))
    requires Enabled(s, Next(s, lossy)) && Idles(s, Step(s, Next(s, lossy)))
    ensures var t := Step(s, Next(s, lossy)); Distance(t) < Distance(s) <= 4 && Gentle(s, t) && !Drained(t)
  {
    assert Next(s, lossy) == LoopEvent(s.phase);
    IdleFrame(s);
    NoWorkIsDrained(s);
    NoWorkIsDrained(Step(s, LoopEvent(s.phase)));
    Closer(s, Step(s, LoopEvent(s.phase)));
  }

  /** Only at the place where nothing is done does the distance not shrink. */
  lemma Closer(s: State, t: State)
    requires DrainInv(s) && Work(s) > 0 && s.host.waking == [] && s.transit == [] && !s.buffer.ep2.xfer.Sending?
    requires s.wire == [] && s.bank == [] && !Productive(s, LoopEvent(s.phase))
    requires t.buffer.queue == s.buffer.queue
    requires t.phase == match s.phase case AtPrepare => AtSend case AtSend => AtTake case AtTake => AtError
                                      case AtError => AtReport case AtReport => AtPrepare
    ensures Distance(t) < Distance(s) <= 4
  {
  }

  /** If every report is dropped, the driver learns nothing. */
  lemma LossyFrame(s: State)
    requires DrainInv(s) && s.readers > 0 && s.host.waking == []
    ensures Enabled(s, Next(s, true))
    ensures var t := Step(s, Next(s, true));
            t.host == s.host && t.readers == s.readers && t.marks.stranded == s.marks.stranded && t.leaked == s.leaked &&
            (!s.marks.voided ==> !t.marks.voided)
  {
    NextIsEnabled(s, true);
    if s.transit != [] {
      DropFrame(s, 0, true);
    } else {
      FirmwareFrame(s, Next(s, true));
      LeakedFrame(s, Next(s, true));
    }
  }

  lemma LeakedFrame(s: State, e: Event)
    requires Enabled(s, e) && !InDriver(e) && !InRead(e)
    ensures Step(s, e).leaked == s.leaked
  {
  }

  /** Reports under way know of every frame charged. */
  ghost predicate Current(s: State) {
    s.wire == [] && s.bank == [] &&
    (forall i | 0 <= i < |s.transit| :: s.transit[i].snap.entered == Entered(s)) &&
    (s.buffer.ep2.xfer.Sending? ==> s.staged.entered == Entered(s)) &&
    (s.host.waking != [] ==> s.view.last.entered == Entered(s))
  }

  lemma CurrentCharges(s: State)
    requires DrainInv(s) && Current(s)
    ensures Charges(s) == Entered(s)
  {
  }

  lemma CurrentStep(s: State, lossy: bool)
    requires DrainInv(s) && s.readers > 0 && Current(s)
    ensures Enabled(s, Next(s, lossy)) && Current(Step(s, Next(s, lossy)))
    ensures forall h :: Fresh(s, Next(s, lossy), h)
  {
    NextIsEnabled(s, lossy);
    CurrentCharges(s);
    match Next(s, lossy)
    case Ep2 => Ep2Frame(s);
    case Set => SetFrame(s);
    case Drop(_, _) => DropFrame(s, 0, true);
    case MakeReport => MakeFrame(s);
    case Wake =>
    case _ => CurrentLoop(s);
  }

  lemma CurrentLoop(s: State)
    requires DrainInv(s) && Current(s) && (s.phase.AtPrepare? || s.phase.AtSend? || s.phase.AtTake? || s.phase.AtError?)
    requires s.host.waking == [] && s.transit == [] && !s.buffer.ep2.xfer.Sending?
    ensures Enabled(s, LoopEvent(s.phase)) && Current(Step(s, LoopEvent(s.phase)))
  {
    MainFrame(s, LoopEvent(s.phase));
  }

  /** What a schedule leads to. */
  ghost predicate Drains(s: State, u: State, lossy: bool) {
    Drained(u) && DrainInv(u) && u.sent == s.sent &&
    (!lossy ==> Gentle(s, u) && (Orphaned(u.marks) ==> Drained(s))) &&
    (lossy && s.host.waking == [] ==>
       u.host == s.host && u.marks.stranded == s.marks.stranded && u.leaked == s.leaked && u.readers == s.readers &&
       (!s.marks.voided ==> !u.marks.voided))
  }

  /** A schedule that empties the pipeline. If no report is stale to begin
      with, none will be. */
  lemma {:induction false} Drain(s: State, lossy: bool) returns (more: seq<Event>)
    requires DrainInv(s) && s.readers > 0
    ensures OnlyOldWork(more) && (!lossy ==> NothingLostIn(more)) && IsRun(s, more)
    ensures Drains(s, Exec(s, more), lossy)
    ensures Current(s) ==> forall h :: FreshRun(s, more, h)
    decreases Work(s), Distance(s)
  {
    more := [];
    if !Drained(s) {
      var e := Next(s, lossy);
      Advance(s, lossy);
      DrainsOn(s, lossy);
      if Current(s) {
        CurrentStep(s, lossy);
      }
      var rest := Drain(Step(s, e), lossy);
      more := [e] + rest;
      assert more[1..] == rest;
    }
  }

  /** Drains is closed under a step of the schedule in front. */
  lemma DrainsOn(s: State, lossy: bool)
    requires DrainInv(s) && s.readers > 0 && !Drained(s)
    ensures Enabled(s, Next(s, lossy))
    ensures var t := Step(s, Next(s, lossy));
            t.readers > 0 && forall u :: Drains(t, u, lossy) ==> Drains(s, u, lossy)
  {
    Advance(s, lossy);
    if lossy && s.host.waking == [] {
      LossyFrame(s);
    } else if lossy {
      assert Next(s, lossy) == Wake;
    }
  }

  // ----- finishing start_xmit ---------------------------------------------------------

  function XmitEvent(x: Xmit): Event
    requires !x.NoXmit?
  {
    match x
    case Checked(_, _) => Stop
    case Acted(_) => Charge
    case Charged(_) => Submit(true)
  }

  function XmitWork(x: Xmit): nat {
    match x
    case NoXmit => 0
    case Charged(_) => 1
    case Acted(_) => 2
    case Checked(_, _) => 3
  }

  lemma XmitStep(s: State, h: Hypothesis)
    requires SafeInv(s, h) && h.bound <= Tolerated(h) && !s.host.xmit.NoXmit?
    ensures var e := XmitEvent(s.host.xmit);
            && Enabled(s, e) && NoNewWork(e)
            && var t := Step(s, e);
               && SafeInv(t, h) && XmitWork(t.host.xmit) < XmitWork(s.host.xmit)
               && Alive(s) <= Alive(t) && t.readers == s.readers
               && (t.host.xmit.NoXmit? ==> t.wire != [])
  {
    SafeStep(s, XmitEvent(s.host.xmit), h);
    assert Bytes(s.wire + [s.host.xmit.pending]) == Bytes(s.wire) + [s.host.xmit.pending.bytes];
  }

  lemma {:induction false} FinishXmit(s: State, h: Hypothesis) returns (more: seq<Event>)
    requires SafeInv(s, h) && h.bound <= Tolerated(h)
    ensures OnlyOldWork(more) && NothingLostIn(more) && IsRun(s, more)
    ensures var u := Exec(s, more);
            && SafeInv(u, h) && u.host.xmit.NoXmit? && Alive(s) <= Alive(u) && u.readers == s.readers
            && (if s.host.xmit.NoXmit? then u == s else u.wire != [])
    decreases XmitWork(s.host.xmit)
  {
    more := [];
    if !s.host.xmit.NoXmit? {
      XmitStep(s, h);
      var e := XmitEvent(s.host.xmit);
      var rest := FinishXmit(Step(s, e), h);
      more := [e] + rest;
      assert more[1..] == rest;
    }
  }

  lemma SafeDrains(v: State, h: Hypothesis)
    requires SafeInv(v, h) && h.bound <= Tolerated(h) && v.host.xmit.NoXmit?
    ensures DrainInv(v)
  {
    OccupancyBound(v, h);
  }

  /** From a safe state: first start_xmit, then the rest. */
  lemma EmptyOut(t: State, h: Hypothesis) returns (more: seq<Event>)
    requires SafeInv(t, h) && h.bound <= Tolerated(h) && t.readers > 0
    ensures OnlyOldWork(more) && NothingLostIn(more) && IsRun(t, more)
    ensures var u := Exec(t, more);
            && DrainInv(u) && Drained(u) && Alive(t) <= Alive(u) && u.readers == t.readers
            && (Drained(t) ==> u == t) && (Orphaned(u.marks) ==> Drained(t))
  {
    var xmit := FinishXmit(t, h);
    var v := Exec(t, xmit);
    SafeDrains(v, h);
    if Drained(t) {
      more := [];
    } else {
      var drain := Drain(v, false);
      RunConcat(t, xmit, drain);
      more := xmit + drain;
    }
  }

  lemma EmptyMeansAll(u: State)
    requires BaseInv(u) && !u.stalled && Drained(u)
    ensures Alive(u) == u.loaded && u.taken == FramesOf(u.handed)
  {
    assert Bytes(u.wire) == [];
  }

  /** Whatever a fresh run has led to, as long as a read URB is left there is a
      way on without any new work and without any loss that sends every
      packet still alive and deals with every frame received. It ends with the
      queue running, unless the run had already left an empty pipeline with an
      orphaned queue. */
  lemma QueueComesBack(s: State, run: seq<Event>, h: Hypothesis) returns (more: seq<Event>)
    requires Init(s) && IsRun(s, run) && FreshRun(s, run, h) && h.bound <= Tolerated(h)
    requires Exec(s, run).readers > 0
    ensures OnlyOldWork(more) && NothingLostIn(more) && IsRun(Exec(s, run), more)
    ensures ComesBack(Exec(s, run), Exec(Exec(s, run), more))
  {
    InitInv(s, h);
    SafeRun(s, run, h);
    more := EmptyOut(Exec(s, run), h);
    EmptyMeansAll(Exec(Exec(s, run), more));
    RunConcat(s, run, more);
    QueueStopsIff(s, run + more);
  }

  ghost predicate ComesBack(t: State, u: State) {
    Drained(u) && Alive(t) <= u.loaded && u.taken == FramesOf(u.handed) &&
    (u.host.stopped <==> Drained(t) && Orphaned(t.marks))
  }
}
