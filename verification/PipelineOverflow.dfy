/** The staleness bounds of CreditInv are exact: one frame more and there is a
    run in which EP1 meets a packet with nowhere to put it. */
module PipelineOverflow {
  import opened Wire
  import opened Endpoint
  import opened BufferSpec
  import opened HostSpec
  import opened Pipeline
  import opened PipelineInvariant
  import opened PipelineTheorems

  const SKB: CanFrame := CanFrame(0x123, [])
  const JUNK: seq<byte> := seq(8, _ => 0)

  /** A driver with no job open and `n` frames in a ring nobody drains. */
  ghost predicate Calm(s: State, n: nat, level: int, stopped: bool) {
    s.host == Host(level, 0, stopped, InitialHost(0).echo, NoXmit, s.host.waking, []) &&
    s.wire == [] && s.bank == [] && s.acked == [] && s.loaded == [] &&
    |s.buffer.queue| == n == |Kept(s.crossed)| <= TX_SLOTS && s.readers > 0 && !s.stalled && !s.buffer.ep1.bug &&
    s.buffer.ep1.xfer == (if n < TX_SLOTS then Receiving([], FRAME_SIZE, BufferTxDone) else Idle)
  }

  /** What sending frames leaves alone. */
  ghost predicate SameReports(s: State, t: State) {
    t.host.waking == s.host.waking && t.transit == s.transit && t.view == s.view && t.staged == s.staged && t.readers == s.readers &&
    t.phase == s.phase && t.buffer.ep2 == s.buffer.ep2 && t.buffer.filling == s.buffer.filling
  }

  /** Some run with fresh reports leads from `s` to `t`. */
  ghost predicate Reaches(s: State, t: State, h: Hypothesis) {
    exists run :: IsRun(s, run) && FreshRun(s, run, h) && Exec(s, run) == t
  }

  lemma Then(s: State, t: State, e: Event, h: Hypothesis) returns (u: State)
    requires Reaches(s, t, h) && Enabled(t, e) && Fresh(t, e, h)
    ensures u == Step(t, e) && Reaches(s, u, h)
  {
    u := Step(t, e);
    var run :| IsRun(s, run) && FreshRun(s, run, h) && Exec(s, run) == t;
    assert [e][1..] == [];
    assert IsRun(t, [e]) && FreshRun(t, [e], h);
    assert Exec(t, [e]) == Exec(u, [e][1..]) == u;
    RunConcat(s, run, [e]);
    assert IsRun(s, run + [e]);
  }

  lemma Decided(s: State, t: State, h: Hypothesis) returns (u: State)
    requires Reaches(s, t, h) && Calm(t, |t.buffer.queue|, t.host.level, false)
    ensures Reaches(s, u, h)
    ensures u == t.(host := t.host.(active := 1, echo := t.host.echo[0 := 0], stopped := t.host.level < MAX_TX_URBS + 3,
                                    xmit := Acted(Urb(0, EncodeFrame(SKB, JUNK)))), current := SKB,
                    marks := t.marks.(halting := t.host.level < MAX_TX_URBS + 3))
  {
    assert FirstFree(t.host.echo, 0) == 0;
    u := Then(s, t, Check(SKB, JUNK), h);
    u := Then(s, u, Stop, h);
  }

  lemma OnTheWire(s: State, t: State, h: Hypothesis) returns (u: State)
    requires Reaches(s, t, h) && Calm(t, |t.buffer.queue|, t.host.level, false)
    ensures Reaches(s, u, h)
    ensures var p := EncodeFrame(SKB, JUNK);
            u == t.(host := t.host.(level := t.host.level - 1, active := 1, echo := t.host.echo[0 := 0],
                                    stopped := t.host.level < MAX_TX_URBS + 3),
                    wire := [Urb(0, p)], current := SKB, marks := t.marks.(halting := false), submitted := t.submitted + [SKB], sent := t.sent + [p])
  {
    u := Decided(s, t, h);
    u := Then(s, u, Charge, h);
    u := Then(s, u, Submit(true), h);
  }

  /** start_xmit from beginning to end, and the packet into EP1's FIFO. */
  lemma Submitted(s: State, t: State, h: Hypothesis) returns (u: State)
    requires Reaches(s, t, h) && Calm(t, |t.buffer.queue|, t.host.level, false)
    ensures Reaches(s, u, h)
    ensures var p := EncodeFrame(SKB, JUNK);
            u == t.(host := t.host.(level := t.host.level - 1, active := 1, echo := t.host.echo[0 := 0],
                                    stopped := t.host.level < MAX_TX_URBS + 3),
                    bank := [p], acked := [0], crossed := t.crossed + [Fate(p, true)], current := SKB, marks := t.marks.(halting := false), submitted := t.submitted + [SKB], sent := t.sent + [p])
  {
    u := OnTheWire(s, t, h);
    u := Then(s, u, UsbOut, h);
  }

  lemma WriteCallback(s: State, t: State, h: Hypothesis) returns (u: State)
    requires Reaches(s, t, h) && t.host.releasing == [] && t.acked == [0] && |t.host.echo| == MAX_TX_URBS
    ensures Reaches(s, u, h)
    ensures u == t.(acked := [], host := t.host.(active := t.host.active - 1, echo := t.host.echo[0 := MAX_TX_URBS]))
  {
    u := Then(s, t, Completed, h);
    u := Then(s, u, Released(true), h);
  }

  lemma OneFrame(s: State, t: State, h: Hypothesis) returns (u: State)
    requires Reaches(s, t, h) && Calm(t, |t.buffer.queue|, t.host.level, false) && |t.buffer.queue| < TX_SLOTS
    ensures Reaches(s, u, h) && SameReports(t, u) && u.buffer.update
    ensures Calm(u, |t.buffer.queue| + 1, t.host.level - 1, t.host.level < MAX_TX_URBS + 3)
  {
    u := Submitted(s, t, h);
    var p := EncodeFrame(SKB, JUNK);
    assert [] + p == p;
    u := Then(s, u, Ep1, h);
    u := WriteCallback(s, u, h);
    assert t.host.echo[0 := 0][0 := MAX_TX_URBS] == t.host.echo;
  }

  lemma {:induction false} Frames(s: State, t: State, k: nat, h: Hypothesis) returns (u: State)
    requires Reaches(s, t, h) && Calm(t, |t.buffer.queue|, t.host.level, false)
    requires |t.buffer.queue| + k <= TX_SLOTS && t.host.level - k >= MAX_TX_URBS + 2
    ensures Reaches(s, u, h) && SameReports(t, u) && (k > 0 || t.buffer.update ==> u.buffer.update)
    ensures Calm(u, |t.buffer.queue| + k, t.host.level - k, false)
    decreases k
  {
    if k == 0 {
      u := t;
    } else {
      var v := OneFrame(s, t, h);
      u := Frames(s, v, k - 1, h);
    }
  }

  /** With the ring full, one more frame stalls EP1. */
  lemma OneTooMany(s: State, t: State, h: Hypothesis) returns (u: State)
    requires Reaches(s, t, h) && Calm(t, TX_SLOTS, t.host.level, false)
    ensures Reaches(s, u, h) && u.stalled
  {
    u := Submitted(s, t, h);
    u := Then(s, u, Ep1, h);
  }

  lemma LoopToReport(s: State, t: State, h: Hypothesis) returns (u: State)
    requires Reaches(s, t, h) && t.phase.AtPrepare? && t.buffer.ep1.xfer.Receiving?
    ensures Reaches(s, u, h) && u == t.(phase := AtReport)
  {
    u := Then(s, t, Prepare, h);
    u := Then(s, u, SendFrame(false), h);
    u := Then(s, u, TakeFrame([]), h);
    u := Then(s, u, TakeError([]), h);
  }

  /** One pass of the main loop writes a report and EP2 sends it. */
  lemma OneReport(s: State, t: State, h: Hypothesis) returns (u: State)
    requires Reaches(s, t, h) && Calm(t, |t.buffer.queue|, t.host.level, false) && |t.buffer.queue| < TX_SLOTS
    requires t.phase.AtPrepare? && t.buffer.ep2 == INITIAL_BUFFER.ep2 && t.buffer.filling == []
    requires t.buffer.update && t.transit == []
    ensures Reaches(s, u, h) && Calm(u, |t.buffer.queue|, t.host.level, false)
    ensures u.phase.AtPrepare? && u.buffer.ep2 == INITIAL_BUFFER.ep2 && u.buffer.filling == []
    ensures u.host.waking == t.host.waking && |u.transit| == 1
    ensures u.transit[0].snap == Snap(|t.buffer.queue|, 0)
    ensures ParseReport(u.transit[0].bytes) == Report(TX_SLOTS - |t.buffer.queue|, [])
  {
    u := LoopToReport(s, t, h);
    u := Staged(s, u, h);
    u := ReportSent(s, u, h);
  }

  lemma Staged(s: State, t: State, h: Hypothesis) returns (u: State)
    requires Reaches(s, t, h) && t.phase.AtReport? && t.loaded == [] && |t.buffer.queue| <= TX_SLOTS
    requires t.buffer.ep2 == INITIAL_BUFFER.ep2 && t.buffer.filling == [] && t.buffer.update
    ensures Reaches(s, u, h)
    ensures u == t.(phase := AtPrepare, staged := Snap(|t.buffer.queue|, 0),
                    buffer := t.buffer.(update := false, ep2 := Send(t.buffer.ep2, ReportBytes(FreeSlots(t.buffer), []), BufferRxDone)))
  {
    u := Then(s, t, MakeReport, h);
  }

  lemma ReportSent(s: State, t: State, h: Hypothesis) returns (u: State)
    requires Reaches(s, t, h) && |t.buffer.queue| <= TX_SLOTS && t.transit == []
    requires var bytes := ReportBytes(FreeSlots(t.buffer), []); t.buffer.ep2 == Send(INITIAL_BUFFER.ep2, bytes, BufferRxDone)
    ensures Reaches(s, u, h)
    ensures |u.transit| == 1 && u.transit[0].snap == t.staged
    ensures ParseReport(u.transit[0].bytes) == Report(FreeSlots(t.buffer), [])
    ensures u == t.(buffer := t.buffer.(ep2 := INITIAL_BUFFER.ep2), transit := u.transit)
  {
    ReportRoundTrip(FreeSlots(t.buffer), []);
    var bytes := ReportBytes(FreeSlots(t.buffer), []);
    assert bytes[..|bytes|] == bytes;
    u := Then(s, t, Ep2, h);
    assert u.transit == [Flight(bytes, t.staged)];
  }

  /** The read callback from beginning to end. */
  lemma Processed(s: State, t: State, free: int, h: Hypothesis) returns (u: State)
    requires Reaches(s, t, h) && Calm(t, |t.buffer.queue|, t.host.level, false) && t.host.waking == []
    requires |t.transit| == 1 && ParseReport(t.transit[0].bytes) == Report(free, [])
    requires |t.buffer.queue| - t.transit[0].snap.entered <= h.bound
    ensures Reaches(s, u, h) && Calm(u, |t.buffer.queue|, free, false) && u.transit == [] && u.host.waking == []
    ensures u.phase == t.phase && u.buffer == t.buffer
  {
    u := Then(s, t, Set, h);
    u := Then(s, u, Wake, h);
  }

  function Start(): State {
    State(TxPrepare(INITIAL_BUFFER), AtPrepare, InitialHost(INITIAL_BUFFER_LEVEL),
          [], [], [], [], MAX_RX_URBS, Snap(0, 0), View(Snap(0, 0), Snap(0, 0), [], []), UNMARKED,
          [], false, SKB, [], [], [], [], [], [])
  }

  lemma StartIsReached(h: Hypothesis)
    ensures Init(Start()) && Reaches(Start(), Start(), h) && Calm(Start(), 0, INITIAL_BUFFER_LEVEL, false)
  {
    assert IsRun(Start(), []) && FreshRun(Start(), [], h) && Exec(Start(), []) == Start();
  }

  /** Ten frames beyond the snapshot: 1 + 10 + 21 fill the ring, and at credit
      10 the driver still sends one more. */
  lemma StaleByTen(h: Hypothesis) returns (u: State)
    requires h.bound >= 10
    ensures Reaches(Start(), u, h) && u.stalled
  {
    var s := Start();
    StartIsReached(h);
    u := OneFrame(s, s, h);
    u := OneReport(s, u, h);
    u := Frames(s, u, 10, h);
    u := Processed(s, u, 31, h);
    u := Frames(s, u, 21, h);
    u := OneTooMany(s, u, h);
  }

  /** A report that is nine frames old leaves the driver a credit nine higher
      than the free space. */
  lemma NineAhead(h: Hypothesis) returns (u: State)
    requires h.bound >= 9
    ensures Reaches(Start(), u, h) && Calm(u, 10, 31, false) && u.transit == [] && u.host.waking == []
    ensures u.phase.AtPrepare? && u.buffer.ep2 == INITIAL_BUFFER.ep2 && u.buffer.filling == []
  {
    var s := Start();
    StartIsReached(h);
    u := OneFrame(s, s, h);
    u := OneReport(s, u, h);
    u := Frames(s, u, 9, h);
    u := Processed(s, u, 31, h);
  }

  /** Nine frames are too many if freshness is only asked when buffer_level is
      stored: the driver fills the ring and stops its queue between that and
      the wake test, which then restarts the queue on an outdated report. */
  lemma LateWake(h: Hypothesis) returns (u: State)
    requires h.bound >= 9 && !h.atWake
    ensures Reaches(Start(), u, h) && u.stalled
  {
    var s := Start();
    u := NineAhead(h);
    u := Frames(s, u, 10, h);
    u := OneReport(s, u, h);
    u := Frames(s, u, 9, h);
    u := FillBeforeWake(s, u, h);
    u := OneTooMany(s, u, h);
  }

  lemma FillBeforeWake(s: State, t: State, h: Hypothesis) returns (u: State)
    requires Reaches(s, t, h) && Calm(t, 29, 12, false) && t.host.waking == [] && h.bound >= 9 && !h.atWake
    requires |t.transit| == 1 && t.transit[0].snap == Snap(20, 0) && ParseReport(t.transit[0].bytes) == Report(12, [])
    ensures Reaches(s, u, h) && Calm(u, TX_SLOTS, 9, false)
  {
    u := Then(s, t, Set, h);
    u := Frames(s, u, 2, h);
    u := OneFrame(s, u, h);
    u := Then(s, u, Wake, h);
  }

  /** The ring is safe in every run exactly up to this staleness. */
  lemma CreditSafetyIsExact(h: Hypothesis)
    ensures NeverOverflows(h) <==> h.bound <= Tolerated(h)
  {
    if h.bound <= Tolerated(h) {
      forall s, run | Init(s) && IsRun(s, run) && FreshRun(s, run, h)
        ensures var t := Exec(s, run); Fits(t) && Armed(t) && !t.stalled
      {
        CreditSafety(s, run, h);
      }
    } else {
      var u;
      if h.atWake {
        u := StaleByTen(h);
      } else {
        u := LateWake(h);
      }
      StartIsReached(h);
    }
  }
}
