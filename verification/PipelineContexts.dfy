/** The pool of echo contexts: who owns which, and how the job counter relates
    to the busy ones, in every run including failed submits and a device that
    disappears. */
module PipelineContexts {
  import opened Wire
  import opened Endpoint
  import opened BufferSpec
  import opened HostSpec
  import opened Pipeline
  import opened PipelineInvariant
  import opened PipelineTheorems
  import opened PipelineOverflow

  function Contexts(wire: seq<Urb>): (cs: seq<nat>)
    ensures |cs| == |wire|
  {
    seq(|wire|, i requires 0 <= i < |wire| => wire[i].context)
  }

  function XmitContext(h: Host): seq<nat> {
    if h.xmit.NoXmit? then [] else [h.xmit.pending.context]
  }

  function Count(q: seq<nat>, c: nat): nat {
    if q == [] then 0 else (if q[0] == c then 1 else 0) + Count(q[1..], c)
  }

  lemma {:induction false} CountAppend(q: seq<nat>, x: nat, c: nat)
    ensures Count(q + [x], c) == Count(q, c) + if x == c then 1 else 0
  {
    if q == [] {
      assert q + [x] == [x];
      assert [x][1..] == [];
    } else {
      assert (q + [x])[1..] == q[1..] + [x];
      CountAppend(q[1..], x, c);
    }
  }

  /** Claims on a context: by start_xmit, by URBs on the wire, by URBs whose
      write callback is due or half done, and by nobody any more. */
  function Claims(s: State, c: nat): nat {
    Count(XmitContext(s.host), c) + Count(Contexts(s.wire), c) + Count(s.acked, c) +
    Count(s.host.releasing, c) + Count(s.leaked, c)
  }

  predicate Taken(echo: seq<nat>, c: nat) {
    c < |echo| && echo[c] != MAX_TX_URBS
  }

  /** A context is claimed exactly once if its echo_index is set and by nobody
      otherwise. */
  ghost predicate PoolInv(s: State) {
    |s.host.echo| == MAX_TX_URBS &&
    (forall i | 0 <= i < MAX_TX_URBS :: s.host.echo[i] == i || s.host.echo[i] == MAX_TX_URBS) &&
    (forall c: nat :: Claims(s, c) == if Taken(s.host.echo, c) then 1 else 0) &&
    s.host.active == |XmitContext(s.host)| + |s.wire| + |s.acked| &&
    |s.host.releasing| <= 1
  }

  lemma PoolCheck(s: State, skb: CanFrame, junk: seq<byte>)
    requires PoolInv(s) && Enabled(s, Check(skb, junk))
    ensures PoolInv(Step(s, Check(skb, junk)))
  {
    var i := FirstFree(s.host.echo, 0);
    FirstFreeIsFirst(s.host.echo, 0);
    var t := Step(s, Check(skb, junk));
    if i < |s.host.echo| {
      forall c: nat
        ensures Claims(t, c) == if Taken(t.host.echo, c) then 1 else 0
      {
        CountAppend([], i, c);
        assert [] + [i] == [i];
        assert Claims(t, c) == Claims(s, c) + if c == i then 1 else 0;
      }
    }
  }

  /** Events that hand a claim on without touching the pool. */
  lemma PoolMove(s: State, t: State)
    requires PoolInv(s) && t.host.echo == s.host.echo
    requires forall c: nat :: Claims(t, c) == Claims(s, c)
    requires t.host.active == |XmitContext(t.host)| + |t.wire| + |t.acked| && |t.host.releasing| <= 1
    ensures PoolInv(t)
  {
  }

  lemma ContextsSnoc(wire: seq<Urb>, urb: Urb)
    ensures Contexts(wire + [urb]) == Contexts(wire) + [urb.context]
  {
  }

  lemma PoolSubmitted(s: State)
    requires PoolInv(s) && Enabled(s, Submit(true))
    ensures PoolInv(Step(s, Submit(true)))
  {
    var t := Step(s, Submit(true));
    var urb := s.host.xmit.pending;
    ContextsSnoc(s.wire, urb);
    forall c: nat
      ensures Claims(t, c) == Claims(s, c)
    {
      CountAppend(Contexts(s.wire), urb.context, c);
      CountOne(urb.context, c);
    }
    PoolMove(s, t);
  }

  lemma PoolLeaked(s: State)
    requires PoolInv(s) && Enabled(s, Submit(false))
    ensures PoolInv(Step(s, Submit(false)))
  {
    var t := Step(s, Submit(false));
    var urb := s.host.xmit.pending;
    forall c: nat
      ensures Claims(t, c) == Claims(s, c)
    {
      CountAppend(s.leaked, urb.context, c);
      CountOne(urb.context, c);
    }
    PoolMove(s, t);
  }

  lemma CountOne(x: nat, c: nat)
    ensures Count([x], c) == if x == c then 1 else 0
  {
    CountAppend([], x, c);
    assert [] + [x] == [x];
  }

  /** A URB that is acknowledged or fails hands its context to the write
      callback. */
  lemma PoolLeavesWire(s: State, e: Event)
    requires PoolInv(s) && Enabled(s, e) && (e.UsbOut? || e.Abort?)
    ensures PoolInv(Step(s, e))
  {
    var t := Step(s, e);
    assert Contexts(s.wire)[1..] == Contexts(t.wire);
    forall c: nat
      ensures Claims(t, c) == Claims(s, c)
    {
      CountAppend(s.acked, s.wire[0].context, c);
    }
    PoolMove(s, t);
  }

  lemma PoolCompleted(s: State)
    requires PoolInv(s) && Enabled(s, Completed)
    ensures PoolInv(Step(s, Completed))
  {
    var t := Step(s, Completed);
    forall c: nat
      ensures Claims(t, c) == Claims(s, c)
    {
      CountAppend([], s.acked[0], c);
      assert [] + [s.acked[0]] == t.host.releasing;
    }
    PoolMove(s, t);
  }

  lemma PoolReleased(s: State, present: bool)
    requires PoolInv(s) && Enabled(s, Released(present))
    ensures PoolInv(Step(s, Released(present)))
  {
    var t := Step(s, Released(present));
    var gone := s.host.releasing[0];
    assert s.host.releasing == [] + [gone];
    forall c: nat
      ensures Claims(t, c) == Claims(s, c) - if present && c == gone then 1 else 0
    {
      CountAppend([], gone, c);
      CountAppend(s.leaked, gone, c);
      assert s.leaked + s.host.releasing == s.leaked + [gone];
    }
    assert Claims(s, gone) >= 1 by {
      CountAppend([], gone, gone);
    }
  }

  /** What the pool consists of is the same in both states. */
  ghost predicate SamePool(s: State, t: State) {
    t.host.echo == s.host.echo && t.host.active == s.host.active && XmitContext(t.host) == XmitContext(s.host) &&
    t.wire == s.wire && t.acked == s.acked && t.host.releasing == s.host.releasing && t.leaked == s.leaked
  }

  lemma PoolDriverFrame(s: State, e: Event)
    requires Enabled(s, e) && (e.Stop? || e.Charge? || e.NoReader? || InRead(e))
    ensures SamePool(s, Step(s, e))
  {
  }

  lemma PoolFirmwareFrame(s: State, e: Event)
    requires Enabled(s, e) && !InDriver(e) && !InRead(e) && !e.UsbOut?
    ensures SamePool(s, Step(s, e))
  {
    FirmwareFrame(s, e);
  }

  lemma PoolElsewhere(s: State, e: Event)
    requires PoolInv(s) && Enabled(s, e) && (!InDriver(e) || e.Stop? || e.Charge? || e.NoReader?) && !e.UsbOut?
    ensures PoolInv(Step(s, e))
  {
    if e.Stop? || e.Charge? || e.NoReader? || InRead(e) {
      PoolDriverFrame(s, e);
    } else {
      PoolFirmwareFrame(s, e);
    }
    PoolMove(s, Step(s, e));
  }

  lemma PoolStep(s: State, e: Event)
    requires PoolInv(s) && Enabled(s, e)
    ensures PoolInv(Step(s, e))
  {
    match e
    case Check(skb, junk) => PoolCheck(s, skb, junk);
    case Submit(ok) =>
      if ok {
        PoolSubmitted(s);
      } else {
        PoolLeaked(s);
      }
    case UsbOut => PoolLeavesWire(s, e);
    case Abort => PoolLeavesWire(s, e);
    case Completed => PoolCompleted(s);
    case Released(present) => PoolReleased(s, present);
    case _ => PoolElsewhere(s, e);
  }

  lemma {:induction false} PoolRun(s: State, run: seq<Event>)
    requires PoolInv(s) && IsRun(s, run)
    ensures PoolInv(Exec(s, run))
    decreases |run|
  {
    if run != [] {
      PoolStep(s, run[0]);
      PoolRun(Step(s, run[0]), run[1..]);
    }
  }

  // ----- counting busy contexts ---------------------------------------------

  function BusyContexts(echo: seq<nat>): (n: nat)
    ensures n <= |echo|
  {
    if echo == [] then 0 else BusyContexts(echo[..|echo| - 1]) + if echo[|echo| - 1] != MAX_TX_URBS then 1 else 0
  }

  /** How often contexts below k occur in q. */
  function CountBelow(q: seq<nat>, k: nat): nat {
    if k == 0 then 0 else CountBelow(q, k - 1) + Count(q, k - 1)
  }

  lemma {:induction false} CountBelowHead(q: seq<nat>, k: nat)
    requires q != []
    ensures CountBelow(q, k) == CountBelow(q[1..], k) + if q[0] < k then 1 else 0
  {
    if k > 0 {
      CountBelowHead(q, k - 1);
    }
  }

  lemma {:induction false} CountBelowNothing(k: nat)
    ensures CountBelow([], k) == 0
  {
    if k > 0 {
      CountBelowNothing(k - 1);
    }
  }

  lemma {:induction false} LengthIsCount(q: seq<nat>, k: nat)
    requires forall c: nat | c >= k :: Count(q, c) == 0
    ensures |q| == CountBelow(q, k)
  {
    if q == [] {
      CountBelowNothing(k);
    } else {
      assert Count(q, q[0]) > 0;
      forall c: nat | c >= k
        ensures Count(q[1..], c) == 0
      {
        assert Count(q, c) == 0;
      }
      LengthIsCount(q[1..], k);
      CountBelowHead(q, k);
    }
  }

  function ClaimsBelow(s: State, k: nat): nat {
    CountBelow(XmitContext(s.host), k) + CountBelow(Contexts(s.wire), k) + CountBelow(s.acked, k) +
    CountBelow(s.host.releasing, k) + CountBelow(s.leaked, k)
  }

  lemma {:induction false} ClaimsAreBusy(s: State, k: nat)
    requires PoolInv(s) && k <= MAX_TX_URBS
    ensures ClaimsBelow(s, k) == BusyContexts(s.host.echo[..k])
  {
    if k > 0 {
      ClaimsAreBusy(s, k - 1);
      assert s.host.echo[..k][..k - 1] == s.host.echo[..k - 1];
      assert Claims(s, k - 1) == if Taken(s.host.echo, k - 1) then 1 else 0;
    }
  }

  lemma PoolCount(s: State)
    requires PoolInv(s)
    ensures s.host.active + |s.host.releasing| + |s.leaked| == BusyContexts(s.host.echo)
  {
    var k := MAX_TX_URBS;
    forall c: nat | c >= k
      ensures Count(XmitContext(s.host), c) == Count(Contexts(s.wire), c) == Count(s.acked, c) == 0
      ensures Count(s.host.releasing, c) == Count(s.leaked, c) == 0
    {
      assert Claims(s, c) == 0;
    }
    LengthIsCount(XmitContext(s.host), k);
    LengthIsCount(Contexts(s.wire), k);
    LengthIsCount(s.acked, k);
    LengthIsCount(s.host.releasing, k);
    LengthIsCount(s.leaked, k);
    ClaimsAreBusy(s, k);
    assert s.host.echo[..k] == s.host.echo;
  }

  /** In every run: an echo_index names its own slot or none, a context has at
      most one owner, and active_tx_jobs falls short of the busy contexts by
      exactly those being released and those leaked; hence equality between
      callbacks when no submit has failed and the device is still there. */
  lemma ContextPool(s: State, run: seq<Event>)
    requires Init(s) && IsRun(s, run)
    ensures var t := Exec(s, run);
            && |t.host.echo| == MAX_TX_URBS
            && (forall i | 0 <= i < MAX_TX_URBS :: t.host.echo[i] == i || t.host.echo[i] == MAX_TX_URBS)
            && (forall c: nat :: Claims(t, c) == if Taken(t.host.echo, c) then 1 else 0)
            && 0 <= t.host.active
            && t.host.active + |t.host.releasing| + |t.leaked| == BusyContexts(t.host.echo) <= MAX_TX_URBS
  {
    PoolRun(s, run);
    PoolCount(Exec(s, run));
  }

  /** The guards that keep Step well defined exclude nothing: a step of the main
      loop is only held up by its place in the loop, and a callback by not
      having begun. */
  predicate NotHeldUp(t: State, present: bool) {
    (Enabled(t, MakeReport) <==> t.phase.AtReport?) &&
    (Enabled(t, Wake) <==> t.host.waking != []) &&
    (Enabled(t, Released(present)) <==> t.host.releasing != [])
  }

  lemma NothingIsHeldUp(s: State, run: seq<Event>, present: bool)
    requires Init(s) && IsRun(s, run)
    ensures NotHeldUp(Exec(s, run), present)
  {
    InitInv(s, Hypothesis(0, true));
    BaseRun(s, run);
    PoolRun(s, run);
    Unguarded(Exec(s, run), present);
  }

  lemma Unguarded(t: State, present: bool)
    requires BaseInv(t) && PoolInv(t)
    ensures NotHeldUp(t, present)
  {
    ReleasingIsTaken(t);
  }

  lemma ReleasingIsTaken(t: State)
    requires PoolInv(t)
    ensures t.host.releasing != [] ==> |t.host.releasing| == 1 && t.host.releasing[0] < MAX_TX_URBS
  {
    if t.host.releasing != [] {
      var c := t.host.releasing[0];
      assert Count(t.host.releasing, c) >= 1;
      assert Claims(t, c) >= 1;
    }
  }

  lemma {:induction false} BusyBelowAll(echo: seq<nat>)
    ensures BusyContexts(echo) == |echo| <==> forall i | 0 <= i < |echo| :: echo[i] != MAX_TX_URBS
  {
    if echo != [] {
      var init := echo[..|echo| - 1];
      BusyBelowAll(init);
      assert (forall i | 0 <= i < |echo| :: echo[i] != MAX_TX_URBS) <==>
             (forall i | 0 <= i < |init| :: init[i] != MAX_TX_URBS) && echo[|echo| - 1] != MAX_TX_URBS by {
        assert forall i | 0 <= i < |init| :: init[i] == echo[i];
      }
    }
  }

  lemma NoneIsFree(echo: seq<nat>)
    ensures FirstFree(echo, 0) == |echo| <==> BusyContexts(echo) == |echo|
  {
    FirstFreeIsFirst(echo, 0);
    BusyBelowAll(echo);
  }

  /** When start_xmit finds no context, in every run: exactly if the open jobs,
      those being released and the leaked ones take up all eight. */
  lemma ContextsRunOut(s: State, run: seq<Event>)
    requires Init(s) && IsRun(s, run)
    ensures var t := Exec(s, run);
            !HasContext(t.host) <==> t.host.active + |t.host.releasing| + |t.leaked| == MAX_TX_URBS
  {
    ContextPool(s, run);
    var t := Exec(s, run);
    NoneIsFree(t.host.echo);
    FirstFreeIsFirst(t.host.echo, 0);
  }

  // ----- the branch that "may never happen" ---------------------------------

  /** A driver that holds `k` contexts, none of whose write callbacks has run,
      with nothing on the wire. */
  ghost predicate LateHost(s: State, k: nat, level: int, stopped: bool) {
    s.host == Host(level, k, stopped, s.host.echo, NoXmit, [], []) && k <= MAX_TX_URBS == |s.host.echo| &&
    (forall i | 0 <= i < MAX_TX_URBS :: s.host.echo[i] == if i < k then i else MAX_TX_URBS) &&
    s.wire == [] && s.bank == [] && s.readers > 0 && !s.stalled && s.leaked == []
  }

  /** The `k` frames are in the ring. */
  ghost predicate Late(s: State, k: nat, level: int, stopped: bool) {
    LateHost(s, k, level, stopped) && s.marks == UNMARKED &&
    s.loaded == [] && |s.buffer.queue| == k && |Kept(s.crossed)| == k &&
    s.buffer.ep1.xfer == Receiving([], FRAME_SIZE, BufferTxDone) && s.phase.AtPrepare? &&
    s.buffer.ep2 == INITIAL_BUFFER.ep2 && s.buffer.filling == [] && s.transit == []
  }

  lemma NextContext(h: Host, k: nat)
    requires |h.echo| == MAX_TX_URBS && k < MAX_TX_URBS
    requires forall i | 0 <= i < MAX_TX_URBS :: h.echo[i] == if i < k then i else MAX_TX_URBS
    ensures FirstFree(h.echo, 0) == k
  {
    FirstFreeIsFirst(h.echo, 0);
    assert h.echo[k] == MAX_TX_URBS;
  }

  lemma LateCheck(s: State, t: State, k: nat, h: Hypothesis) returns (u: State)
    requires Reaches(s, t, h) && LateHost(t, k, t.host.level, false) && k < MAX_TX_URBS && t.host.level >= MAX_TX_URBS + 3
    ensures Reaches(s, u, h)
    ensures u == t.(host := t.host.(active := k + 1, echo := t.host.echo[k := k], stopped := k + 1 == MAX_TX_URBS,
                                    xmit := Acted(Urb(k, EncodeFrame(SKB, JUNK)))), current := SKB, marks := t.marks.(halting := k + 1 == MAX_TX_URBS))
  {
    NextContext(t.host, k);
    u := Then(s, t, Check(SKB, JUNK), h);
    u := Then(s, u, Stop, h);
  }

  lemma LateSubmit(s: State, t: State, k: nat, h: Hypothesis) returns (u: State)
    requires Reaches(s, t, h) && LateHost(t, k, t.host.level, false) && k < MAX_TX_URBS && t.host.level >= MAX_TX_URBS + 3
    ensures Reaches(s, u, h)
    ensures var p := EncodeFrame(SKB, JUNK);
            u == t.(host := t.host.(level := t.host.level - 1, active := k + 1, echo := t.host.echo[k := k],
                                    stopped := k + 1 == MAX_TX_URBS),
                    wire := [Urb(k, p)], current := SKB, marks := t.marks.(halting := false), submitted := t.submitted + [SKB], sent := t.sent + [p])
  {
    u := LateCheck(s, t, k, h);
    u := Then(s, u, Charge, h);
    u := Then(s, u, Submit(true), h);
  }

  lemma LateArrival(s: State, t: State, p: Packet, k: nat, h: Hypothesis) returns (u: State)
    requires Reaches(s, t, h) && t.wire == [Urb(k, p)] && t.bank == []
    requires t.buffer.ep1.xfer == Receiving([], FRAME_SIZE, BufferTxDone) && |t.buffer.queue| < TX_SLOTS - 1
    ensures Reaches(s, u, h)
    ensures u == t.(wire := [], acked := t.acked + [k], crossed := t.crossed + [Fate(p, true)],
                    buffer := t.buffer.(queue := t.buffer.queue + [p], update := true))
  {
    u := Then(s, t, UsbOut, h);
    var v := u;
    u := Then(s, u, Ep1, h);
    Ep1Stores(v, p);
  }

  /** A whole frame into a ring that stays short of full. */
  lemma Ep1Stores(v: State, p: Packet)
    requires v.bank == [p] && v.buffer.ep1.xfer == Receiving([], FRAME_SIZE, BufferTxDone)
    requires |v.buffer.queue| < TX_SLOTS - 1
    ensures Step(v, Ep1) == v.(bank := [], buffer := v.buffer.(queue := v.buffer.queue + [p], update := true))
  {
    assert [] + p == p;
    assert v.bank[1..] == [];
  }

  lemma LateFrame(s: State, t: State, k: nat, h: Hypothesis) returns (u: State)
    requires Reaches(s, t, h) && k < MAX_TX_URBS && Late(t, k, INITIAL_BUFFER_LEVEL - k, false)
    ensures Reaches(s, u, h) && Late(u, k + 1, INITIAL_BUFFER_LEVEL - (k + 1), k + 1 == MAX_TX_URBS) && u.buffer.update
  {
    var v := LateSubmit(s, t, k, h);
    u := LateArrival(s, v, EncodeFrame(SKB, JUNK), k, h);
    FatesSnoc(t.crossed, Fate(EncodeFrame(SKB, JUNK), true));
  }

  /** Frames one after the other until `n` of them wait in the ring. */
  lemma {:induction false} LateFrames(s: State, t: State, k: nat, n: nat, h: Hypothesis) returns (u: State)
    requires Reaches(s, t, h) && k < n <= MAX_TX_URBS && Late(t, k, INITIAL_BUFFER_LEVEL - k, false)
    ensures Reaches(s, u, h) && Late(u, n, INITIAL_BUFFER_LEVEL - n, n == MAX_TX_URBS) && u.buffer.update
    decreases n - k
  {
    u := LateFrame(s, t, k, h);
    if k + 1 < n {
      u := LateFrames(s, u, k + 1, n, h);
    }
  }

  lemma LateReport(s: State, t: State, h: Hypothesis) returns (u: State)
    requires Reaches(s, t, h) && Late(t, MAX_TX_URBS, INITIAL_BUFFER_LEVEL - MAX_TX_URBS, true) && t.buffer.update
    ensures Reaches(s, u, h) && u.host == t.host.(stopped := false, level := TX_SLOTS - MAX_TX_URBS)
    ensures u.leaked == []
  {
    u := LoopToReport(s, t, h);
    u := Staged(s, u, h);
    u := ReportSent(s, u, h);
    u := Then(s, u, Set, h);
    u := Then(s, u, Wake, h);
  }

  /** Even with perfectly fresh reports and no failed submit the queue can be
      woken with all contexts busy: the report of eight frames in the ring
      may overtake their write callbacks. */
  lemma NoFreeContextIsReachable(h: Hypothesis) returns (u: State)
    ensures Reaches(Start(), u, h) && u.leaked == []
    ensures u.host.xmit.NoXmit? && !u.host.stopped && !HasContext(u.host)
  {
    StartIsReached(h);
    var t := LateFrames(Start(), Start(), 0, MAX_TX_URBS, h);
    u := LateReport(Start(), t, h);
    FirstFreeIsFirst(u.host.echo, 0);
  }
}
