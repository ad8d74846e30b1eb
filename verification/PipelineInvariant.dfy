/** Invariants of the pipeline, each kept by every step. */
module PipelineInvariant {
  import opened Wire
  import opened Endpoint
  import opened BufferSpec
  import opened HostSpec
  import opened Pipeline

  // ----- endpoints and frames -----------------------------------------------

  ghost predicate Ep1Ok(ep: Ep) {
    !ep.bug && (ep.xfer.Idle? || ep.xfer == Receiving([], FRAME_SIZE, BufferTxDone))
  }

  /** A packet on its way to the host is a complete report of the ring as it
      was at `snap`. */
  predicate ReportOf(bytes: seq<byte>, snap: Snap) {
    var r := ParseReport(bytes);
    snap.left <= snap.entered <= snap.left + TX_SLOTS && |bytes| <= EP2_SIZE &&
    r.Report? && r.free == TX_SLOTS - (snap.entered - snap.left)
  }

  ghost predicate Ep2Ok(ep: Ep, staged: Snap) {
    !ep.bug && ep.truncate && ep.size == EP2_SIZE &&
    (ep.xfer.Idle? || (ep.xfer.Sending? && ReportOf(ep.xfer.rest, staged)))
  }

  ghost predicate TransitOk(transit: seq<Flight>) {
    forall i | 0 <= i < |transit| :: ReportOf(transit[i].bytes, transit[i].snap)
  }

  function Bytes(wire: seq<Urb>): (ps: seq<Packet>)
    ensures |ps| == |wire|
  {
    seq(|wire|, i requires 0 <= i < |wire| => wire[i].bytes)
  }

  /** Order and conservation on the way out: what the driver submitted has left
      the wire or is on it; what has left it and was not lost is what the
      controller was given, then what is in the ring and in EP1's FIFO. */
  ghost predicate TxFifo(s: State) {
    Kept(s.crossed) == s.loaded + s.buffer.queue + s.bank
  }

  ghost predicate WireFifo(s: State) {
    s.sent == FramesOf(s.crossed) + Bytes(s.wire)
  }

  function FramesIn(transit: seq<Flight>): seq<Packet> {
    if transit == [] then [] else Carried(transit[0]) + FramesIn(transit[1..])
  }

  function FramesStaged(b: Buffer): seq<Packet> {
    if b.ep2.xfer.Sending? then
      match ParseReport(b.ep2.xfer.rest) case Malformed => [] case Report(_, frames) => frames
    else []
  }

  /** Order and conservation on the way in: what was read from the controller
      is what the read callback has dealt with, then what is in transit, held
      by EP2 and being filled. */
  ghost predicate RxFifo(s: State) {
    s.taken == FramesOf(s.handed) + FramesIn(s.transit) + FramesStaged(s.buffer) + s.buffer.filling
  }

  /** Holds in every run. A frame can only be lost by stalling EP1, on the bus,
      or in the read callback. */
  ghost predicate FlowInv(s: State) {
    Ep1Ok(s.buffer.ep1) && Ep2Ok(s.buffer.ep2, s.staged) && TransitOk(s.transit) &&
    |s.bank| <= 1 && |s.buffer.queue| <= TX_SLOTS && |s.buffer.filling| <= RX_MAX_FRAMES &&
    (s.buffer.ep1.xfer.Receiving? ==> |s.buffer.queue| < TX_SLOTS) &&
    (!s.stalled ==> TxFifo(s)) && WireFifo(s) && RxFifo(s)
  }

  lemma {:induction false} FramesInSnoc(transit: seq<Flight>, f: Flight)
    ensures FramesIn(transit + [f]) == FramesIn(transit) + Carried(f)
  {
    if transit == [] {
      assert [f][1..] == [];
      assert transit + [f] == [f];
    } else {
      assert (transit + [f])[1..] == transit[1..] + [f];
      FramesInSnoc(transit[1..], f);
    }
  }

  lemma FatesSnoc(fs: seq<Fate>, f: Fate)
    ensures FramesOf(fs + [f]) == FramesOf(fs) + [f.frame]
    ensures Kept(fs + [f]) == Kept(fs) + if f.kept then [f.frame] else []
  {
    assert (fs + [f])[..|fs|] == fs;
  }

  lemma FatesMark(fs: seq<Fate>, frames: seq<Packet>, k: nat)
    ensures FramesOf(fs + Mark(frames, k)) == FramesOf(fs) + frames
  {
  }

  lemma MarkSnoc(fs: seq<Fate>, frames: seq<Packet>, k: nat)
    requires frames != []
    ensures var n := |frames| - 1;
            fs + Mark(frames, k) == fs + Mark(frames[..n], k) + [Fate(frames[n], n < k)]
  {
  }

  lemma TakeSnoc(frames: seq<Packet>, k: nat)
    requires frames != [] && k <= |frames|
    ensures var n := |frames| - 1;
            frames[..k] == if k == n + 1 then frames[..n] + [frames[n]] else frames[..n][..k]
  {
  }

  /** Of a marked sequence the first k frames are kept. */
  lemma {:induction false} KeptMark(fs: seq<Fate>, frames: seq<Packet>, k: nat)
    requires k <= |frames|
    ensures Kept(fs + Mark(frames, k)) == Kept(fs) + frames[..k]
    decreases |frames|
  {
    if frames == [] {
      assert fs + Mark(frames, k) == fs;
    } else {
      var n := |frames| - 1;
      var j := if k <= n then k else n;
      KeptMark(fs, frames[..n], j);
      MarkMore(frames[..n], k);
      MarkSnoc(fs, frames, k);
      FatesSnoc(fs + Mark(frames[..n], k), Fate(frames[n], n < k));
      TakeSnoc(frames, k);
    }
  }

  lemma MarkMore(frames: seq<Packet>, k: nat)
    ensures Mark(frames, k) == Mark(frames, if k <= |frames| then k else |frames|)
  {
  }

  // ----- snapshots ----------------------------------------------------------

  predicate Le(a: Snap, b: Snap) {
    a.entered <= b.entered && a.left <= b.left
  }

  predicate Monotone(q: seq<Snap>) {
    forall i, j | 0 <= i <= j < |q| :: Le(q[i], q[j])
  }

  function Snaps(transit: seq<Flight>): (q: seq<Snap>)
    ensures |q| == |transit|
  {
    seq(|transit|, i requires 0 <= i < |transit| => transit[i].snap)
  }

  /** The snapshots behind the report processed last, behind the one dealt with
      last, and behind those still on their way. */
  function Pending(s: State): seq<Snap> {
    [s.view.last, s.view.front] + Snaps(s.transit) + if s.buffer.ep2.xfer.Sending? then [s.staged] else []
  }

  function Now(s: State): Snap {
    Snap(Entered(s), Left(s))
  }

  function Free(p: Snap): int {
    TX_SLOTS - (p.entered - p.left)
  }

  predicate ValidSnap(p: Snap) {
    p.left <= p.entered <= p.left + TX_SLOTS
  }

  /** The free_slots on record belong to the snapshots on record. */
  predicate ViewInv(v: View) {
    ValidSnap(v.last) && ValidSnap(v.front) &&
    (v.told != [] ==> v.told[|v.told| - 1] == Free(v.last)) &&
    (if v.missed == [] then v.front == v.last else v.missed[|v.missed| - 1] == Free(v.front))
  }

  /** The newest snapshot is up to date unless update_needed says otherwise. */
  ghost predicate SnapInv(s: State) {
    Monotone(Pending(s) + [Now(s)]) &&
    (!s.buffer.update ==> Pending(s)[|Pending(s)| - 1] == Now(s)) &&
    ViewInv(s.view) &&
    (s.host.waking != [] ==> s.host.waking == [Free(s.view.last)] && s.view.front == s.view.last)
  }

  // ----- credits ------------------------------------------------------------

  /** Frames that, as far as the driver can know, may occupy the ring. */
  function Claimed(s: State): int {
    Charges(s) - s.view.last.left
  }

  /** The largest staleness that cannot overflow the ring. */
  function Tolerated(h: Hypothesis): nat {
    if h.atWake then 9 else 8
  }

  /** A wake test that is still to come and will restart the queue. */
  predicate WakeDue(s: State) {
    s.host.waking != [] && s.host.waking[0] > MAX_TX_URBS + 3
  }

  /** What an idle, running driver may have claimed. If freshness is not asked
      at the wake test, a late wake lets one more frame through. */
  function Limit(s: State, h: Hypothesis): int {
    22 + h.bound + if h.atWake || WakeDue(s) then 0 else 1
  }

  ghost predicate CreditInv(s: State, h: Hypothesis) {
    s.host.level + Charges(s) <= TX_SLOTS + h.bound + s.view.last.left &&
    match s.host.xmit
    case NoXmit => Claimed(s) <= Limit(s, h) + 1 && (!s.host.stopped ==> Claimed(s) <= Limit(s, h))
    case Checked(stop, _) => Claimed(s) <= Limit(s, h) && (!stop ==> Claimed(s) <= Limit(s, h) - 1)
    case Acted(_) => Claimed(s) <= Limit(s, h) && (!s.host.stopped ==> Claimed(s) <= Limit(s, h) - 1)
    case Charged(_) => Claimed(s) <= Limit(s, h) + 1 && (!s.host.stopped ==> Claimed(s) <= Limit(s, h))
  }

  /** When EP1 is not armed the ring is full, or one frame short of it in the
      window between a pop and the next buffer_tx_prepare; in both cases
      nothing is under way to EP1 and nothing can be. */
  ghost predicate DisarmedInv(s: State, h: Hypothesis) {
    s.buffer.ep1.xfer.Idle? ==>
      s.host.stopped && s.host.xmit.NoXmit? && s.wire == [] && s.bank == [] &&
      |s.buffer.queue| >= TX_SLOTS - 1 && (s.phase.AtSend? ==> |s.buffer.queue| == TX_SLOTS) &&
      (h.atWake || !WakeDue(s))
  }

  ghost predicate BaseInv(s: State) {
    FlowInv(s) && SnapInv(s)
  }

  ghost predicate SafeInv(s: State, h: Hypothesis) {
    BaseInv(s) && CreditInv(s, h) && DisarmedInv(s, h) && !s.stalled
  }

  // ----- preservation -------------------------------------------------------

  lemma EncodedLength(b: Buffer, now: Snap)
    requires now.left <= now.entered && |b.queue| == now.entered - now.left <= TX_SLOTS && |b.filling| <= RX_MAX_FRAMES
    ensures ReportOf(ReportBytes(FreeSlots(b), b.filling), now)
    ensures ParseReport(ReportBytes(FreeSlots(b), b.filling)).frames == b.filling
  {
    ReportRoundTrip(FreeSlots(b), b.filling);
  }

  lemma FlowSubmit(s: State, ok: bool)
    requires FlowInv(s) && Enabled(s, Submit(ok))
    ensures FlowInv(Step(s, Submit(ok)))
  {
    if ok {
      assert Bytes(s.wire + [s.host.xmit.pending]) == Bytes(s.wire) + [s.host.xmit.pending.bytes];
    }
  }

  /** A packet leaves the wire, for EP1's FIFO or for good. */
  lemma LeavesWire(s: State, kept: bool)
    requires s.wire != [] && WireFifo(s)
    ensures var f := Fate(s.wire[0].bytes, kept);
            && s.sent == FramesOf(s.crossed + [f]) + Bytes(s.wire[1..])
            && Kept(s.crossed + [f]) == Kept(s.crossed) + if kept then [s.wire[0].bytes] else []
  {
    FatesSnoc(s.crossed, Fate(s.wire[0].bytes, kept));
    assert Bytes(s.wire) == [s.wire[0].bytes] + Bytes(s.wire[1..]);
  }

  lemma FlowUsbOut(s: State)
    requires FlowInv(s) && Enabled(s, UsbOut)
    ensures FlowInv(Step(s, UsbOut))
  {
    LeavesWire(s, true);
    assert s.bank == [];
  }

  lemma FlowAbort(s: State)
    requires FlowInv(s) && Enabled(s, Abort)
    ensures FlowInv(Step(s, Abort))
  {
    LeavesWire(s, false);
  }

  /** EP1 stalls exactly when no receive is armed. */
  lemma FlowEp1(s: State)
    requires FlowInv(s) && Enabled(s, Ep1)
    ensures var t := Step(s, Ep1);
            && FlowInv(t)
            && t.stalled == (s.stalled || s.buffer.ep1.xfer.Idle?)
            && t.buffer.queue == s.buffer.queue + (if s.buffer.ep1.xfer.Idle? then [] else s.bank)
            && t.buffer.ep2 == s.buffer.ep2
            && (t.buffer.update || (t.buffer.update == s.buffer.update && t.buffer.queue == s.buffer.queue))
  {
    assert s.bank == [s.bank[0]];
    assert [] + s.bank[0] == s.bank[0];
  }

  lemma FlowSend(s: State, ready: bool)
    requires FlowInv(s) && Enabled(s, SendFrame(ready))
    ensures FlowInv(Step(s, SendFrame(ready)))
  {
    if CanSend(s.buffer, ready) {
      assert s.buffer.queue == [s.buffer.queue[0]] + s.buffer.queue[1..];
    }
  }

  lemma FlowTake(s: State, frame: seq<Packet>)
    requires FlowInv(s) && |frame| <= 1
    ensures FlowInv(Take(s, frame))
  {
    if |frame| == 1 && CanTake(s.buffer) {
      TakeFlow(s, frame);
    }
  }

  lemma TakeFlow(s: State, frame: seq<Packet>)
    requires RxFifo(s) && |frame| == 1 && CanTake(s.buffer)
    ensures RxFifo(Take(s, frame))
  {
    assert frame == [frame[0]];
    assert FramesStaged(Take(s, frame).buffer) == FramesStaged(s.buffer);
  }

  lemma FlowReport(s: State)
    requires FlowInv(s) && Enabled(s, MakeReport)
    ensures FlowInv(Step(s, MakeReport))
  {
    if CanReport(s.buffer) {
      EncodedLength(s.buffer, Now(s));
      var t := Step(s, MakeReport);
      assert FramesStaged(t.buffer) == s.buffer.filling && FramesStaged(s.buffer) == [];
      assert RxFifo(t);
    }
  }

  lemma Ep2Frame(s: State)
    requires FlowInv(s) && Enabled(s, Ep2)
    ensures Step(s, Ep2) == s.(buffer := s.buffer.(ep2 := Cancel(s.buffer.ep2)),
                               transit := s.transit + [Flight(s.buffer.ep2.xfer.rest, s.staged)])
  {
    var bytes := s.buffer.ep2.xfer.rest;
    TruncatedTransfer(s.buffer.ep2);
    assert bytes[..|bytes|] == bytes;
    assert seq(1, i requires 0 <= i < 1 => Flight([bytes][i], s.staged)) == [Flight(bytes, s.staged)];
  }

  lemma FlowEp2(s: State)
    requires FlowInv(s) && Enabled(s, Ep2)
    ensures FlowInv(Step(s, Ep2))
  {
    Ep2Frame(s);
    FramesInSnoc(s.transit, Flight(s.buffer.ep2.xfer.rest, s.staged));
    var t := Step(s, Ep2);
    Reassociate(FramesOf(s.handed), FramesIn(s.transit), FramesStaged(s.buffer));
    assert RxFifo(t);
    assert TransitOk(t.transit);
  }

  lemma HeadReport(s: State)
    requires FlowInv(s) && s.transit != []
    ensures var f := s.transit[0];
            && ParseReport(f.bytes) == Report(Free(f.snap), Carried(f)) && ValidSnap(f.snap)
            && FramesIn(s.transit) == Carried(f) + FramesIn(s.transit[1..])
  {
    assert ReportOf(s.transit[0].bytes, s.transit[0].snap);
  }

  lemma SetFrame(s: State)
    requires FlowInv(s) && Enabled(s, Set)
    ensures var t, f := Step(s, Set), s.transit[0];
            t == s.(transit := s.transit[1..], host := ReportSet(s.host, Free(f.snap)),
                    view := View(f.snap, f.snap, s.view.told + [Free(f.snap)], []),
                    handed := s.handed + Mark(Carried(f), |Carried(f)|))
  {
    HeadReport(s);
  }

  lemma DropFrame(s: State, k: nat, again: bool)
    requires FlowInv(s) && Enabled(s, Drop(k, again))
    ensures var t, f := Step(s, Drop(k, again)), s.transit[0];
            t == s.(transit := s.transit[1..], readers := if again then s.readers else s.readers - 1,
                    view := s.view.(front := f.snap, missed := s.view.missed + [Free(f.snap)]),
                    marks := if s.host.stopped && Free(f.snap) > MAX_TX_URBS + 3 then s.marks.(deaf := true) else s.marks,
                    handed := s.handed + Mark(Carried(f), k))
  {
    HeadReport(s);
  }

  lemma Reassociate<T>(a: seq<T>, b: seq<T>, c: seq<T>)
    ensures a + b + c == a + (b + c)
  {
  }

  /** A report that is dealt with keeps the order of frames, however many of
      its frames are kept. */
  lemma FlowHandled(s: State, t: State, k: nat)
    requires FlowInv(s) && s.transit != []
    requires t.transit == s.transit[1..] && t.handed == s.handed + Mark(Carried(s.transit[0]), k)
    requires t.buffer == s.buffer && t.taken == s.taken && t.bank == s.bank && t.wire == s.wire && t.staged == s.staged
    requires t.sent == s.sent && t.crossed == s.crossed && t.loaded == s.loaded && t.stalled == s.stalled
    ensures FlowInv(t)
  {
    HeadReport(s);
    FatesMark(s.handed, Carried(s.transit[0]), k);
    Reassociate(FramesOf(s.handed), Carried(s.transit[0]), FramesIn(t.transit));
    assert RxFifo(t);
    assert TransitOk(t.transit);
  }

  lemma FlowSet(s: State)
    requires FlowInv(s) && Enabled(s, Set)
    ensures FlowInv(Step(s, Set))
  {
    SetFrame(s);
    FlowHandled(s, Step(s, Set), |Carried(s.transit[0])|);
  }

  lemma FlowDrop(s: State, k: nat, again: bool)
    requires FlowInv(s) && Enabled(s, Drop(k, again))
    ensures FlowInv(Step(s, Drop(k, again)))
  {
    DropFrame(s, k, again);
    FlowHandled(s, Step(s, Drop(k, again)), k);
  }

  lemma FlowStep(s: State, e: Event)
    requires FlowInv(s) && Enabled(s, e)
    ensures FlowInv(Step(s, e))
  {
    match e
    case Submit(ok) => FlowSubmit(s, ok);
    case UsbOut => FlowUsbOut(s);
    case Abort => FlowAbort(s);
    case Ep1 => FlowEp1(s);
    case SendFrame(ready) => FlowSend(s, ready);
    case TakeFrame(frame) => FlowTake(s, frame);
    case TakeError(frame) => FlowTake(s, frame);
    case MakeReport => FlowReport(s);
    case Ep2 => FlowEp2(s);
    case Set => FlowSet(s);
    case Drop(k, again) => FlowDrop(s, k, again);
    case _ =>
  }

  lemma LastSnapFirst(s: State)
    requires SnapInv(s)
    ensures Le(s.view.last, s.view.front) && Le(s.view.front, Now(s))
  {
    var q := Pending(s) + [Now(s)];
    assert q[0] == s.view.last && q[1] == s.view.front && q[|q| - 1] == Now(s);
  }

  /** Advancing the present keeps the chain of snapshots. */
  lemma MonotoneAdvance(q: seq<Snap>, a: Snap, b: Snap)
    requires Monotone(q + [a]) && Le(a, b)
    ensures Monotone(q + [b]) && Monotone(q + [a] + [b])
  {
    forall i, j | 0 <= i <= j < |q + [a] + [b]|
      ensures Le((q + [a] + [b])[i], (q + [a] + [b])[j])
    {
      assert i < |q + [a]| ==> Le((q + [a])[i], (q + [a])[|q|]);
      if j < |q + [a]| {
        assert Le((q + [a])[i], (q + [a])[j]);
      }
    }
    forall i, j | 0 <= i <= j < |q + [b]|
      ensures Le((q + [b])[i], (q + [b])[j])
    {
      assert i < |q| ==> Le((q + [a])[i], (q + [a])[|q|]);
      if j < |q| {
        assert Le((q + [a])[i], (q + [a])[j]);
      }
    }
  }

  /** Events that leave the transit queue, EP2 and the driver's view alone. */
  lemma SnapAdvance(s: State, t: State)
    requires SnapInv(s) && Onward(s, t)
    ensures SnapInv(t)
  {
    assert Pending(t) == Pending(s);
    MonotoneAdvance(Pending(s), Now(s), Now(t));
  }

  lemma SnapReport(s: State)
    requires SnapInv(s) && Enabled(s, MakeReport)
    ensures SnapInv(Step(s, MakeReport))
  {
    if CanReport(s.buffer) {
      var t := Step(s, MakeReport);
      assert Pending(t) == Pending(s) + [Now(s)];
      MonotoneAdvance(Pending(s), Now(s), Now(s));
    } else {
      SnapAdvance(s, Step(s, MakeReport));
    }
  }

  lemma PendingEp2(s: State)
    requires FlowInv(s) && Enabled(s, Ep2)
    ensures Pending(Step(s, Ep2)) == Pending(s) && Now(Step(s, Ep2)) == Now(s)
  {
    Ep2Frame(s);
    assert Snaps(Step(s, Ep2).transit) == Snaps(s.transit) + [s.staged];
  }

  lemma SnapEp2(s: State)
    requires FlowInv(s) && SnapInv(s) && Enabled(s, Ep2)
    ensures SnapInv(Step(s, Ep2))
  {
    Ep2Frame(s);
    PendingEp2(s);
  }

  /** Replacing the two oldest snapshots by the third keeps the chain; so does
      leaving out the second. */
  lemma MonotoneHandled(q: seq<Snap>, p: seq<Snap>, both: bool)
    requires Monotone(q) && |q| >= 4 && |p| == |q| - 1
    requires p[0] == (if both then q[2] else q[0]) && forall i | 1 <= i < |p| :: p[i] == q[i + 1]
    ensures Monotone(p)
  {
    forall i, j | 0 <= i <= j < |p|
      ensures Le(p[i], p[j])
    {
      assert Le(q[if i == 0 then if both then 2 else 0 else i + 1], q[if j == 0 then if both then 2 else 0 else j + 1]);
    }
  }

  /** A report that is dealt with becomes the front of the chain. */
  lemma PendingHandled(s: State, t: State)
    requires BaseInv(s) && s.transit != [] && t.transit == s.transit[1..]
    requires t.buffer == s.buffer && t.staged == s.staged && t.loaded == s.loaded
    requires t.view.front == s.transit[0].snap && (t.view.last == t.view.front || t.view.last == s.view.last)
    ensures Monotone(Pending(t) + [Now(t)])
    ensures Pending(t)[|Pending(t)| - 1] == Pending(s)[|Pending(s)| - 1]
  {
    var q, p := Pending(s) + [Now(s)], Pending(t) + [Now(t)];
    assert Snaps(s.transit) == [s.transit[0].snap] + Snaps(t.transit);
    assert p[1..] == q[2..];
    MonotoneHandled(q, p, t.view.last == t.view.front);
  }

  lemma SnapSet(s: State)
    requires BaseInv(s) && Enabled(s, Set)
    ensures SnapInv(Step(s, Set))
  {
    HeadReport(s);
    SetFrame(s);
    PendingHandled(s, Step(s, Set));
  }

  lemma SnapDrop(s: State, k: nat, again: bool)
    requires BaseInv(s) && Enabled(s, Drop(k, again))
    ensures SnapInv(Step(s, Drop(k, again)))
  {
    HeadReport(s);
    DropFrame(s, k, again);
    PendingHandled(s, Step(s, Drop(k, again)));
  }

  /** The driver apart from its read callback, and its URBs. */
  predicate InDriver(e: Event) {
    e.Check? || e.Stop? || e.Charge? || e.Submit? || e.Completed? || e.Released? || e.NoReader? || e.Abort?
  }

  /** The firmware and the reports on their way do not notice. */
  ghost predicate SameDevice(s: State, t: State) {
    t.buffer == s.buffer && t.phase == s.phase && t.stalled == s.stalled && t.bank == s.bank && t.loaded == s.loaded &&
    t.transit == s.transit && t.staged == s.staged && t.view == s.view && t.host.waking == s.host.waking
  }

  lemma DriverFrame(s: State, e: Event)
    requires InDriver(e) && Enabled(s, e)
    ensures SameDevice(s, Step(s, e))
  {
  }

  predicate InMainLoop(e: Event) {
    e.UsbOut? || e.Prepare? || e.SendFrame? || e.TakeFrame? || e.TakeError?
  }

  /** Reports on their way and the driver's view are as before; the present may
      have moved on. */
  ghost predicate Onward(s: State, t: State) {
    t.transit == s.transit && t.staged == s.staged && t.view == s.view && t.buffer.ep2 == s.buffer.ep2 &&
    t.host.waking == s.host.waking && (s.buffer.update ==> t.buffer.update) &&
    Le(Now(s), Now(t)) && (Now(s) == Now(t) || t.buffer.update)
  }

  lemma SendOnward(s: State, e: Event)
    requires (e.UsbOut? || e.Prepare? || e.SendFrame?) && Enabled(s, e)
    ensures Onward(s, Step(s, e))
  {
  }

  lemma TakeOnward(s: State, e: Event)
    requires (e.TakeFrame? || e.TakeError?) && Enabled(s, e)
    ensures Onward(s, Step(s, e))
  {
  }

  lemma MainFrame(s: State, e: Event)
    requires InMainLoop(e) && Enabled(s, e)
    ensures Onward(s, Step(s, e))
  {
    if e.TakeFrame? || e.TakeError? {
      TakeOnward(s, e);
    } else {
      SendOnward(s, e);
    }
  }

  lemma SnapWake(s: State)
    requires SnapInv(s) && Enabled(s, Wake)
    ensures SnapInv(Step(s, Wake))
  {
    assert Pending(Step(s, Wake)) == Pending(s);
  }

  lemma SnapEp1(s: State)
    requires BaseInv(s) && Enabled(s, Ep1)
    ensures SnapInv(Step(s, Ep1))
  {
    FlowEp1(s);
    SnapAdvance(s, Step(s, Ep1));
  }

  lemma SnapStep(s: State, e: Event)
    requires BaseInv(s) && Enabled(s, e)
    ensures SnapInv(Step(s, e))
  {
    if InDriver(e) {
      DriverFrame(s, e);
      SnapAdvance(s, Step(s, e));
    } else if InMainLoop(e) {
      MainFrame(s, e);
      SnapAdvance(s, Step(s, e));
    } else {
      match e
      case MakeReport => SnapReport(s);
      case Ep2 => SnapEp2(s);
      case Set => SnapSet(s);
      case Drop(k, again) => SnapDrop(s, k, again);
      case Ep1 => SnapEp1(s);
      case Wake => SnapWake(s);
    }
  }

  lemma BaseStep(s: State, e: Event)
    requires BaseInv(s) && Enabled(s, e)
    ensures BaseInv(Step(s, e))
  {
    FlowStep(s, e);
    SnapStep(s, e);
  }

  lemma CreditSet(s: State, h: Hypothesis)
    requires SafeInv(s, h) && Enabled(s, Set) && Fresh(s, Set, h)
    ensures CreditInv(Step(s, Set), h)
  {
    SetFrame(s);
    HeadInOrder(s);
  }

  /** The oldest report on its way is no older than those dealt with. */
  lemma HeadInOrder(s: State)
    requires BaseInv(s) && s.transit != []
    ensures Le(s.view.last, s.transit[0].snap) && Le(s.transit[0].snap, Now(s))
  {
    var q := Pending(s) + [Now(s)];
    assert q[0] == s.view.last && q[2] == s.transit[0].snap && q[|q| - 1] == Now(s);
    assert Le(q[0], q[2]) && Le(q[2], q[|q| - 1]);
  }

  lemma CreditDrop(s: State, k: nat, again: bool, h: Hypothesis)
    requires SafeInv(s, h) && Enabled(s, Drop(k, again))
    ensures CreditInv(Step(s, Drop(k, again)), h)
  {
    DropFrame(s, k, again);
  }

  /** A frame lost on the bus is no longer claimed. */
  lemma CreditAbort(s: State, h: Hypothesis)
    requires CreditInv(s, h) && Enabled(s, Abort)
    ensures CreditInv(Step(s, Abort), h)
  {
    AbortFrame(s);
  }

  lemma AbortFrame(s: State)
    requires Enabled(s, Abort)
    ensures var t := Step(s, Abort); t.host == s.host && t.view == s.view && Charges(t) == Charges(s) - 1
  {
    FatesSnoc(s.crossed, Fate(s.wire[0].bytes, false));
  }

  /** Charging moves one frame from the credit counter to the frames sent;
      stopping the queue below MAX_TX_URBS + 3 leaves the slack that stale
      reports eat up. */
  lemma CreditDriver(s: State, e: Event, h: Hypothesis)
    requires SafeInv(s, h) && Enabled(s, e) && InDriver(e)
    ensures CreditInv(Step(s, e), h)
  {
    match e
    case Check(skb, junk) => CreditCheck(s, skb, junk, h);
    case Submit(ok) => CreditSubmit(s, ok, h);
    case Completed =>
    case Released(_) =>
    case Stop =>
    case Charge =>
    case NoReader =>
    case Abort => CreditAbort(s, h);
  }

  lemma CreditCheck(s: State, skb: CanFrame, junk: seq<byte>, h: Hypothesis)
    requires CreditInv(s, h) && Enabled(s, Check(skb, junk))
    ensures CreditInv(Step(s, Check(skb, junk)), h)
  {
  }

  lemma CreditSubmit(s: State, ok: bool, h: Hypothesis)
    requires CreditInv(s, h) && Enabled(s, Submit(ok))
    ensures CreditInv(Step(s, Submit(ok)), h)
  {
  }

  lemma CreditWake(s: State, h: Hypothesis)
    requires SafeInv(s, h) && Enabled(s, Wake) && Fresh(s, Wake, h)
    ensures CreditInv(Step(s, Wake), h)
  {
  }

  /** The firmware and the bus do not touch the driver. */
  ghost predicate SameDriver(s: State, t: State) {
    t.host == s.host && t.sent == s.sent && t.view == s.view && t.marks == s.marks && t.readers == s.readers &&
    Charges(t) == Charges(s)
  }

  lemma InterruptFrame(s: State, e: Event)
    requires (e.UsbOut? || e.Ep1? || e.Ep2?) && Enabled(s, e)
    ensures SameDriver(s, Step(s, e))
  {
    if e.UsbOut? {
      FatesSnoc(s.crossed, Fate(s.wire[0].bytes, true));
    }
  }

  lemma LoopFrame(s: State, e: Event)
    requires (e.Prepare? || e.SendFrame? || e.MakeReport?) && Enabled(s, e)
    ensures SameDriver(s, Step(s, e))
  {
  }

  lemma TakeFrames(s: State, e: Event)
    requires (e.TakeFrame? || e.TakeError?) && Enabled(s, e)
    ensures SameDriver(s, Step(s, e))
  {
  }

  /** The read callback. */
  predicate InRead(e: Event) {
    e.Set? || e.Wake? || e.Drop?
  }

  lemma FirmwareFrame(s: State, e: Event)
    requires !InDriver(e) && !InRead(e) && Enabled(s, e)
    ensures SameDriver(s, Step(s, e))
  {
    if e.UsbOut? || e.Ep1? || e.Ep2? {
      InterruptFrame(s, e);
    } else if e.TakeFrame? || e.TakeError? {
      TakeFrames(s, e);
    } else {
      LoopFrame(s, e);
    }
  }

  lemma CreditStep(s: State, e: Event, h: Hypothesis)
    requires SafeInv(s, h) && Enabled(s, e) && Fresh(s, e, h)
    ensures CreditInv(Step(s, e), h)
  {
    if InDriver(e) {
      CreditDriver(s, e, h);
    } else if e.Set? {
      CreditSet(s, h);
    } else if e.Wake? {
      CreditWake(s, h);
    } else if e.Drop? {
      CreditDrop(s, e.k, e.again, h);
    } else {
      FirmwareFrame(s, e);
    }
  }

  /** Occupancy: ring, FIFO, wire and the frame being submitted together never
      exceed the ring. */
  lemma OccupancyBound(s: State, h: Hypothesis)
    requires SafeInv(s, h) && h.bound <= Tolerated(h)
    ensures |s.buffer.queue| + |s.bank| + |s.wire| + |InXmit(s.host)| <= TX_SLOTS
    ensures Charges(s) - Left(s) == |s.buffer.queue| + |s.bank| + |s.wire| + |InXmit(s.host)|
  {
    LastSnapFirst(s);
  }

  lemma DisarmedSet(s: State, h: Hypothesis)
    requires SafeInv(s, h) && Enabled(s, Set) && Fresh(s, Set, h) && h.bound <= Tolerated(h)
    ensures DisarmedInv(Step(s, Set), h)
  {
    OccupancyBound(s, h);
    SetFrame(s);
    HeadInOrder(s);
  }

  lemma DisarmedDrop(s: State, k: nat, again: bool, h: Hypothesis)
    requires SafeInv(s, h) && Enabled(s, Drop(k, again))
    ensures DisarmedInv(Step(s, Drop(k, again)), h) && !Step(s, Drop(k, again)).stalled
  {
    DropFrame(s, k, again);
  }

  lemma DisarmedEp1(s: State, h: Hypothesis)
    requires SafeInv(s, h) && Enabled(s, Ep1) && h.bound <= Tolerated(h)
    ensures DisarmedInv(Step(s, Ep1), h) && !Step(s, Ep1).stalled
  {
    OccupancyBound(s, h);
    LastSnapFirst(s);
    FlowEp1(s);
  }

  lemma DisarmedDriver(s: State, e: Event, h: Hypothesis)
    requires SafeInv(s, h) && Enabled(s, e) && InDriver(e)
    ensures DisarmedInv(Step(s, e), h) && !Step(s, e).stalled
  {
    DriverFrame(s, e);
  }

  lemma DisarmedWake(s: State, h: Hypothesis)
    requires SafeInv(s, h) && Enabled(s, Wake) && Fresh(s, Wake, h) && h.bound <= Tolerated(h)
    ensures DisarmedInv(Step(s, Wake), h) && !Step(s, Wake).stalled
  {
    OccupancyBound(s, h);
    LastSnapFirst(s);
  }

  /** Only buffer_tx_prepare and the pop matter to EP1. */
  lemma DisarmedLoop(s: State, e: Event, h: Hypothesis)
    requires SafeInv(s, h) && Enabled(s, e) && (e.Prepare? || e.SendFrame?)
    ensures DisarmedInv(Step(s, e), h) && !Step(s, e).stalled
  {
  }

  lemma QuietFrame(s: State, e: Event)
    requires Enabled(s, e) && (e.UsbOut? || e.TakeFrame? || e.TakeError? || e.MakeReport?)
    ensures var t := Step(s, e);
            && t.buffer.ep1 == s.buffer.ep1 && t.buffer.queue == s.buffer.queue && t.host == s.host
            && t.stalled == s.stalled && (t.phase.AtSend? ==> e.UsbOut?)
    ensures e.UsbOut? ==> s.wire != []
    ensures !e.UsbOut? ==> Step(s, e).wire == s.wire && Step(s, e).bank == s.bank
  {
  }

  lemma DisarmedMain(s: State, e: Event, h: Hypothesis)
    requires SafeInv(s, h) && Enabled(s, e) && (InMainLoop(e) || e.MakeReport?)
    ensures DisarmedInv(Step(s, e), h) && !Step(s, e).stalled
  {
    if e.Prepare? || e.SendFrame? {
      DisarmedLoop(s, e, h);
    } else {
      QuietFrame(s, e);
    }
  }

  lemma DisarmedStep(s: State, e: Event, h: Hypothesis)
    requires SafeInv(s, h) && Enabled(s, e) && Fresh(s, e, h) && h.bound <= Tolerated(h)
    ensures DisarmedInv(Step(s, e), h) && !Step(s, e).stalled
  {
    if InDriver(e) {
      DisarmedDriver(s, e, h);
    } else if InMainLoop(e) || e.MakeReport? {
      DisarmedMain(s, e, h);
    } else {
      match e
      case Ep1 => DisarmedEp1(s, h);
      case Ep2 => Ep2Frame(s);
      case Set => DisarmedSet(s, h);
      case Wake => DisarmedWake(s, h);
      case Drop(k, again) => DisarmedDrop(s, k, again, h);
    }
  }

  lemma SafeStep(s: State, e: Event, h: Hypothesis)
    requires SafeInv(s, h) && Enabled(s, e) && Fresh(s, e, h) && h.bound <= Tolerated(h)
    ensures SafeInv(Step(s, e), h)
  {
    BaseStep(s, e);
    CreditStep(s, e, h);
    DisarmedStep(s, e, h);
  }
}
